/** The single-page crawler's extraction: collapsed text, title and links, all bounded. */
module Crawler {
  import opened Common
  import opened Text

  const TITLE_LIMIT := 512
  const TEXT_LIMIT := 2048
  const HREF_LIMIT := 2048
  const LINK_LIMIT := 1024
  const MAX_LINKS := 20

  // ------------------------------------------------------------------ collapsed white space

  predicate EndsInBlank(s: string) {
    s != "" && s[|s| - 1] == ' '
  }

  /** One character more of collapsed text: white space counts as a blank, and not behind a blank. */
  function AddChar(t: string, c: char): string {
    if !IsSpace(c) then t + [c] else if EndsInBlank(t) then t else t + " "
  }

  /** Every run of white space replaced by one blank. */
  function Collapse(s: string): string {
    if s == "" then "" else AddChar(Collapse(s[..|s| - 1]), s[|s| - 1])
  }

  function StripBlanks(s: string): string {
    if s != "" && s[0] == ' ' then StripBlanks(s[1..]) else s
  }

  /** What a text becomes when more data follow, without a bound. */
  function Absorb(t: string, data: string): string {
    var more := Collapse(data);
    t + if EndsInBlank(t) then StripBlanks(more) else more
  }

  /** Collapsed text has no blank behind a blank. */
  predicate Collapsed(s: string) {
    forall i | 0 < i < |s| :: s[i] != ' ' || s[i - 1] != ' '
  }

  lemma {:induction false} CollapseIsCollapsed(s: string)
    ensures Collapsed(Collapse(s))
    ensures forall i | 0 <= i < |Collapse(s)| :: IsSpace(Collapse(s)[i]) ==> Collapse(s)[i] == ' '
  {
    if s != "" {
      CollapseIsCollapsed(s[..|s| - 1]);
    }
  }

  /** Behind a blank, stripping first or adding first is the same. */
  lemma {:induction false} AddAfterStrip(t: string, u: string, c: char)
    requires EndsInBlank(t) && Collapsed(u) && Collapsed(AddChar(u, c))
    ensures t + StripBlanks(AddChar(u, c)) == AddChar(t + StripBlanks(u), c)
  {
  }

  /** Feeding data in two parts is feeding it at once. */
  lemma {:induction false} CollapseAppend(a: string, b: string)
    ensures Collapse(a + b) == Absorb(Collapse(a), b)
  {
    hide IsSpace, AddChar, EndsInBlank, StripBlanks;
    if b == "" {
      assert a + b == a && Collapse(b) == "";
      AbsorbNothing(Collapse(a));
    } else {
      var front, c := b[..|b| - 1], b[|b| - 1];
      assert (a + b)[..|a + b| - 1] == a + front && (a + b)[|a + b| - 1] == c;
      CollapseAppend(a, front);
      CollapseIsCollapsed(front);
      CollapseIsCollapsed(b);
      if EndsInBlank(Collapse(a)) {
        AddAfterStrip(Collapse(a), Collapse(front), c);
      } else {
        AbsorbChar(Collapse(a), Collapse(front), c);
      }
    }
  }

  lemma {:induction false} AbsorbNothing(t: string)
    ensures StripBlanks("") == "" && t + "" == t
  {
  }

  lemma {:induction false} AbsorbChar(t: string, u: string, c: char)
    requires !EndsInBlank(t)
    ensures t + AddChar(u, c) == AddChar(t + u, c)
  {
    hide IsSpace;
    if u == "" {
      assert t + u == t;
    } else {
      assert (t + u)[|t + u| - 1] == u[|u| - 1];
      assert t + (u + [c]) == (t + u) + [c];
      assert t + (u + " ") == (t + u) + " ";
    }
  }

  // ------------------------------------------------------------------ the parser's state

  /** What the page parser reports: tags with their link, and text between them. */
  datatype Event = StartTag(tag: string, href: Option<string>) | EndTag(tag: string) | Data(text: string)

  datatype Page = Page(
    title: string, text: string, links: seq<string>, inTitle: bool, hidden: seq<string>, truncated: bool)

  const NEW_PAGE := Page("", "", [], false, [], false)

  predicate IsHiding(tag: string) {
    tag == "script" || tag == "style" || tag == "template"
  }

  function Cut(s: string, n: nat): (r: string)
    ensures r <= s && |r| == if |s| <= n then |s| else n
  {
    if |s| <= n then s else s[..n]
  }

  function Boundary(p: Page): Page {
    if p.text != "" && !EndsInBlank(p.text) && |p.text| < TEXT_LIMIT then p.(text := p.text + " ") else p
  }

  /** Resolving a reference against the page; None if it is not an acceptable link. */
  type Resolver = string -> Option<string>

  function AddLink(p: Page, href: Option<string>, resolve: Resolver): Page {
    if href.None? || href.value == "" then p
    else if |href.value| > HREF_LIMIT then p.(truncated := true)
    else
      match resolve(href.value)
      case None => p
      case Some(link) =>
        if link in p.links then p
        else if |p.links| < MAX_LINKS && |link| <= LINK_LIMIT then p.(links := p.links + [link])
        else p.(truncated := true)
  }

  function OnStart(p: Page, tag: string, href: Option<string>, resolve: Resolver): Page {
    var p1 := if IsHiding(tag) then p.(hidden := p.hidden + [tag]) else p;
    if p1.hidden != [] then p1 else
    var p2 := if p1.inTitle then p1 else Boundary(p1);
    var p3 := if tag == "title" then p2.(inTitle := true) else p2;
    if tag == "a" then AddLink(p3, href, resolve) else p3
  }

  function OnEnd(p: Page, tag: string): Page {
    if p.hidden != [] then
      if tag == p.hidden[|p.hidden| - 1] then p.(hidden := p.hidden[..|p.hidden| - 1]) else p
    else if tag == "title" then p.(inTitle := false)
    else if p.inTitle then p
    else Boundary(p)
  }

  function OnData(p: Page, data: string): Page {
    if p.hidden != [] || Collapse(data) == "" then p
    else if p.inTitle then
      var combined := Absorb(p.title, data);
      p.(title := Cut(combined, TITLE_LIMIT), truncated := p.truncated || |combined| > TITLE_LIMIT)
    else
      var combined := Absorb(p.text, data);
      p.(text := Cut(combined, TEXT_LIMIT), truncated := p.truncated || |combined| > TEXT_LIMIT)
  }

  function Step(p: Page, e: Event, resolve: Resolver): Page {
    match e
    case StartTag(tag, href) => OnStart(p, tag, href, resolve)
    case EndTag(tag) => OnEnd(p, tag)
    case Data(text) => OnData(p, text)
  }

  function Parse(events: seq<Event>, resolve: Resolver): Page {
    if events == [] then NEW_PAGE
    else Step(Parse(events[..|events| - 1], resolve), events[|events| - 1], resolve)
  }

  // ------------------------------------------------------------------ the parser, in place

  class PageParser {
    const resolve: Resolver
    var title: string
    var text: string
    var links: seq<string>
    var inTitle: bool
    var hidden: seq<string>
    var outputTruncated: bool

    function View(): Page
      reads this
    {
      Page(title, text, links, inTitle, hidden, outputTruncated)
    }

    constructor (resolve: Resolver)
      ensures View() == NEW_PAGE && this.resolve == resolve
    {
      this.resolve, title, text, links, inTitle, hidden, outputTruncated := resolve, "", "", [], false, [], false;
    }

    method TextBoundary()
      modifies this`text
      ensures View() == Boundary(old(View()))
    {
      if text != "" && !EndsInBlank(text) && |text| < TEXT_LIMIT {
        text := text + " ";
      }
    }

    method CollectLink(href: Option<string>)
      modifies this`links, this`outputTruncated
      ensures View() == AddLink(old(View()), href, resolve)
    {
      if href.None? || href.value == "" {
        return;
      }
      if |href.value| > HREF_LIMIT {
        outputTruncated := true;
        return;
      }
      var link := resolve(href.value);
      if link.None? || link.value in links {
        return;
      }
      if |links| < MAX_LINKS && |link.value| <= LINK_LIMIT {
        links := links + [link.value];
      } else {
        outputTruncated := true;
      }
    }

    method HandleStartTag(tag: string, href: Option<string>)
      modifies this
      ensures View() == OnStart(old(View()), tag, href, resolve)
    {
      hide AddLink, Boundary;
      if IsHiding(tag) {
        hidden := hidden + [tag];
      }
      if hidden != [] {
        return;
      }
      if !inTitle {
        TextBoundary();
      }
      if tag == "title" {
        inTitle := true;
      }
      if tag == "a" {
        CollectLink(href);
      }
    }

    method HandleEndTag(tag: string)
      modifies this
      ensures View() == OnEnd(old(View()), tag)
    {
      hide Boundary;
      if hidden != [] {
        if tag == hidden[|hidden| - 1] {
          hidden := hidden[..|hidden| - 1];
        }
        return;
      }
      if tag == "title" {
        inTitle := false;
      } else if !inTitle {
        TextBoundary();
      }
    }

    method HandleData(data: string)
      modifies this
      ensures View() == OnData(old(View()), data)
    {
      hide Collapse;
      if hidden != [] {
        return;
      }
      var more := Collapse(data);
      if more == "" {
        return;
      }
      var limit := if inTitle then TITLE_LIMIT else TEXT_LIMIT;
      var was := if inTitle then title else text;
      var combined := was + if EndsInBlank(was) then StripBlanks(more) else more;
      outputTruncated := outputTruncated || |combined| > limit;
      if inTitle {
        title := Cut(combined, limit);
      } else {
        text := Cut(combined, limit);
      }
    }
  }

  // ------------------------------------------------------------------ plain text, in any split

  function DataEvents(chunks: seq<string>): seq<Event> {
    if chunks == [] then [] else DataEvents(chunks[..|chunks| - 1]) + [Data(chunks[|chunks| - 1])]
  }

  function Concat(chunks: seq<string>): string {
    if chunks == [] then "" else Concat(chunks[..|chunks| - 1]) + chunks[|chunks| - 1]
  }

  lemma {:induction false} StripIsTail(s: string)
    ensures |StripBlanks(s)| <= |s|
  {
    if s != "" && s[0] == ' ' {
      StripIsTail(s[1..]);
    }
  }

  /** A text cut at its bound absorbs more data like the whole text does. */
  lemma {:induction false} AbsorbCut(whole: string, data: string, n: nat)
    requires n > 0
    ensures Cut(Absorb(Cut(whole, n), data), n) == Cut(Absorb(whole, data), n)
    ensures (|whole| > n || |Absorb(Cut(whole, n), data)| > n) == (|Absorb(whole, data)| > n)
  {
  }

  lemma {:induction false} EmptyAbsorb(t: string, data: string)
    requires Collapse(data) == ""
    ensures Absorb(t, data) == t
  {
  }

  /** The text is the first characters of the collapsed whole, and the flag says whether there were more. */
  lemma {:induction false} TextIsWholePrefix(chunks: seq<string>, resolve: Resolver)
    ensures var p, whole := Parse(DataEvents(chunks), resolve), Collapse(Concat(chunks));
            && p.text == Cut(whole, TEXT_LIMIT) && p.truncated == (|whole| > TEXT_LIMIT)
            && p.hidden == [] && !p.inTitle
  {
    hide Collapse, Cut, Absorb, OnStart, OnEnd;
    if chunks == [] {
      NothingParsed(resolve);
    } else {
      var front, c := chunks[..|chunks| - 1], chunks[|chunks| - 1];
      TextIsWholePrefix(front, resolve);
      var events := DataEvents(front);
      assert (events + [Data(c)])[..|events|] == events;
      assert Parse(DataEvents(chunks), resolve) == OnData(Parse(events, resolve), c);
      CollapseAppend(Concat(front), c);
      AbsorbCut(Collapse(Concat(front)), c, TEXT_LIMIT);
      hide Parse, Concat, DataEvents;
      if Collapse(c) == "" {
        EmptyAbsorb(Collapse(Concat(front)), c);
      }
    }
  }

  lemma {:induction false} NothingParsed(resolve: Resolver)
    ensures Parse(DataEvents([]), resolve) == NEW_PAGE
    ensures Cut(Collapse(Concat([])), TEXT_LIMIT) == "" && Collapse(Concat([])) == ""
  {
  }

  /** However text is cut into pieces, the extraction is the same. */
  lemma {:induction false} SplitIndependence(a: seq<string>, b: seq<string>, resolve: Resolver)
    requires Concat(a) == Concat(b)
    ensures Parse(DataEvents(a), resolve).text == Parse(DataEvents(b), resolve).text
    ensures Parse(DataEvents(a), resolve).truncated == Parse(DataEvents(b), resolve).truncated
  {
    hide Parse, Collapse, Cut;
    TextIsWholePrefix(a, resolve);
    TextIsWholePrefix(b, resolve);
  }

  // ------------------------------------------------------------------ any page, without bounds

  /**
    * What a page holds: all its title data, its text with the boundaries, its links in order of occurrence.
    * `loose` says that the blank at the end of the text is a boundary's, with no data behind it.
    */
  datatype Whole = Whole(
    title: string, text: string, loose: bool, links: seq<string>, longHref: bool, inTitle: bool, hidden: seq<string>)

  const NEW_WHOLE := Whole("", "", false, [], false, false, [])

  function WholeBoundary(w: Whole): Whole {
    if w.text != "" && !EndsInBlank(w.text) then w.(text := w.text + " ", loose := true) else w
  }

  function WholeLink(w: Whole, href: Option<string>, resolve: Resolver): Whole {
    if href.None? || href.value == "" then w
    else if |href.value| > HREF_LIMIT then w.(longHref := true)
    else match resolve(href.value) case None => w case Some(link) => w.(links := w.links + [link])
  }

  function WholeStart(w: Whole, tag: string, href: Option<string>, resolve: Resolver): Whole {
    if IsHiding(tag) then w.(hidden := w.hidden + [tag])
    else if w.hidden != [] then w
    else
      var w1 := if w.inTitle then w else WholeBoundary(w);
      if tag == "title" then w1.(inTitle := true)
      else if tag == "a" then WholeLink(w1, href, resolve)
      else w1
  }

  function WholeEnd(w: Whole, tag: string): Whole {
    if w.hidden != [] then
      if tag == w.hidden[|w.hidden| - 1] then w.(hidden := w.hidden[..|w.hidden| - 1]) else w
    else if tag == "title" then w.(inTitle := false)
    else if w.inTitle then w
    else WholeBoundary(w)
  }

  function WholeData(w: Whole, data: string): Whole {
    if w.hidden != [] then w
    else if w.inTitle then w.(title := Absorb(w.title, data))
    else w.(text := Absorb(w.text, data), loose := w.loose && Collapse(data) == "")
  }

  function WholeStep(w: Whole, e: Event, resolve: Resolver): Whole {
    match e
    case StartTag(tag, href) => WholeStart(w, tag, href, resolve)
    case EndTag(tag) => WholeEnd(w, tag)
    case Data(text) => WholeData(w, text)
  }

  function WholePage(events: seq<Event>, resolve: Resolver): Whole {
    if events == [] then NEW_WHOLE
    else WholeStep(WholePage(events[..|events| - 1], resolve), events[|events| - 1], resolve)
  }

  /** The first occurrences of the links that are not too long. */
  function Distinct(links: seq<string>): (r: seq<string>) {
    if links == [] then [] else
    var before, link := Distinct(links[..|links| - 1]), links[|links| - 1];
    if |link| > LINK_LIMIT || link in before then before else before + [link]
  }

  predicate AnyLong(links: seq<string>) {
    exists i :: 0 <= i < |links| && |links[i]| > LINK_LIMIT
  }

  function Take(links: seq<string>, n: nat): (r: seq<string>)
    ensures r <= links && |r| == if |links| <= n then |links| else n
  {
    if |links| <= n then links else links[..n]
  }

  /** Data beyond the text's bound; a boundary's blank at the very end is not one. */
  predicate Overfull(w: Whole) {
    |w.text| > if w.loose then TEXT_LIMIT + 1 else TEXT_LIMIT
  }

  /** Something of the page does not fit the bounds. */
  predicate Exceeds(w: Whole) {
    |w.title| > TITLE_LIMIT || Overfull(w) || w.longHref || AnyLong(w.links) || |Distinct(w.links)| > MAX_LINKS
  }

  predicate LooseBlank(w: Whole) {
    w.loose ==> |w.text| > 1 && EndsInBlank(w.text) && w.text[|w.text| - 2] != ' '
  }

  /** The bounded state shows the beginnings of the whole page's parts. */
  predicate Shows(p: Page, w: Whole) {
    && p.title == Cut(w.title, TITLE_LIMIT) && p.text == Cut(w.text, TEXT_LIMIT)
    && p.links == Take(Distinct(w.links), MAX_LINKS)
    && p.inTitle == w.inTitle && p.hidden == w.hidden
    && p.truncated == Exceeds(w) && LooseBlank(w)
  }

  lemma {:induction false} BoundaryShows(p: Page, w: Whole)
    requires Shows(p, w)
    ensures Shows(Boundary(p), WholeBoundary(w))
  {
  }

  lemma {:induction false} FlagsShow(p: Page, w: Whole, inTitle: bool, hidden: seq<string>)
    requires Shows(p, w)
    ensures p.inTitle == w.inTitle && p.hidden == w.hidden
    ensures Shows(p.(inTitle := inTitle), w.(inTitle := inTitle)) && Shows(p.(hidden := hidden), w.(hidden := hidden))
  {
  }

  lemma {:induction false} LongHrefShows(p: Page, w: Whole)
    requires Shows(p, w)
    ensures Shows(p.(truncated := true), w.(longHref := true))
  {
  }

  lemma {:induction false} NewLinkShows(p: Page, w: Whole, link: string)
    requires Shows(p, w)
    ensures var p' := if link in p.links then p
                      else if |p.links| < MAX_LINKS && |link| <= LINK_LIMIT then p.(links := p.links + [link])
                      else p.(truncated := true);
            Shows(p', w.(links := w.links + [link]))
  {
    hide Cut, EndsInBlank;
    NextLink(w.links, link);
    hide Distinct, AnyLong;
  }

  lemma {:induction false} LinkShows(p: Page, w: Whole, href: Option<string>, resolve: Resolver)
    requires Shows(p, w)
    ensures Shows(AddLink(p, href, resolve), WholeLink(w, href, resolve))
  {
    hide Shows;
    LongHrefShows(p, w);
    if href.Some? && href.value != "" && |href.value| <= HREF_LIMIT && resolve(href.value).Some? {
      NewLinkShows(p, w, resolve(href.value).value);
    }
  }

  lemma {:induction false} NextLink(links: seq<string>, link: string)
    ensures var more := links + [link];
            && Distinct(more) == (if |link| > LINK_LIMIT || link in Distinct(links) then Distinct(links)
                                  else Distinct(links) + [link])
            && (AnyLong(more) <==> AnyLong(links) || |link| > LINK_LIMIT)
            && (link in Take(Distinct(links), MAX_LINKS) ==> |link| <= LINK_LIMIT)
  {
    var more := links + [link];
    assert more[..|links|] == links;
    DistinctShort(links);
    if AnyLong(links) {
      var i :| 0 <= i < |links| && |links[i]| > LINK_LIMIT;
      assert more[i] == links[i];
    }
    if |link| > LINK_LIMIT {
      assert more[|links|] == link;
    }
  }

  /** Distinct links are short, occur in the page, and really are distinct. */
  lemma {:induction false} DistinctShort(links: seq<string>)
    ensures forall i | 0 <= i < |Distinct(links)| :: |Distinct(links)[i]| <= LINK_LIMIT && Distinct(links)[i] in links
    ensures forall i, j | 0 <= i < j < |Distinct(links)| :: Distinct(links)[i] != Distinct(links)[j]
  {
    if links != [] {
      DistinctShort(links[..|links| - 1]);
    }
  }

  /** Every link that is not too long is among them. */
  lemma {:induction false} DistinctHoldsAll(links: seq<string>, link: string)
    requires link in links && |link| <= LINK_LIMIT
    ensures link in Distinct(links)
  {
    if link in links[..|links| - 1] {
      DistinctHoldsAll(links[..|links| - 1], link);
    }
  }

  /** More links only add behind. */
  lemma {:induction false} DistinctGrows(links: seq<string>, more: seq<string>)
    ensures Distinct(links) <= Distinct(links + more)
    decreases |more|
  {
    if more == [] {
      assert links + more == links;
    } else {
      assert (links + more)[..|links + more| - 1] == links + more[..|more| - 1];
      DistinctGrows(links, more[..|more| - 1]);
    }
  }

  lemma {:induction false} StartShows(p: Page, w: Whole, tag: string, href: Option<string>, resolve: Resolver)
    requires Shows(p, w)
    ensures Shows(OnStart(p, tag, href, resolve), WholeStart(w, tag, href, resolve))
  {
    hide Shows, Boundary, WholeBoundary, AddLink, WholeLink;
    FlagsShow(p, w, true, p.hidden + [tag]);
    BoundaryShows(p, w);
    var p1, w1 := if p.inTitle then p else Boundary(p), if w.inTitle then w else WholeBoundary(w);
    assert Shows(p1, w1);
    FlagsShow(p1, w1, true, []);
    LinkShows(p1, w1, href, resolve);
  }

  lemma {:induction false} DataShows(p: Page, w: Whole, data: string)
    requires Shows(p, w)
    ensures Shows(OnData(p, data), WholeData(w, data))
  {
  }

  lemma {:induction false} EndShows(p: Page, w: Whole, tag: string)
    requires Shows(p, w)
    ensures Shows(OnEnd(p, tag), WholeEnd(w, tag))
  {
    hide Shows, Boundary, WholeBoundary;
    FlagsShow(p, w, false, if p.hidden == [] then [] else p.hidden[..|p.hidden| - 1]);
    BoundaryShows(p, w);
  }

  /**
    * For any page: title and text are the beginnings of the whole collapsed title and text, the links are the
    * first distinct acceptable ones in the order of the page, and the flag is raised iff something was lost.
    */
  lemma {:induction false} ExtractionShowsPage(events: seq<Event>, resolve: Resolver)
    ensures Shows(Parse(events, resolve), WholePage(events, resolve))
  {
    hide Shows, OnStart, OnEnd, OnData, WholeStart, WholeEnd, WholeData;
    if events == [] {
      NewShows();
    } else {
      var front := events[..|events| - 1];
      ExtractionShowsPage(front, resolve);
      var p, w := Parse(front, resolve), WholePage(front, resolve);
      hide Parse, WholePage;
      match events[|events| - 1]
      case StartTag(tag, href) => StartShows(p, w, tag, href, resolve);
      case EndTag(tag) => EndShows(p, w, tag);
      case Data(text) => DataShows(p, w, text);
    }
  }

  lemma {:induction false} NewShows()
    ensures Shows(NEW_PAGE, NEW_WHOLE)
  {
  }

  /** The bounds, for any page. */
  lemma {:induction false} ExtractionIsBounded(events: seq<Event>, resolve: Resolver)
    ensures var p := Parse(events, resolve);
            && |p.title| <= TITLE_LIMIT && |p.text| <= TEXT_LIMIT && |p.links| <= MAX_LINKS
            && (forall i | 0 <= i < |p.links| :: |p.links[i]| <= LINK_LIMIT)
            && (forall i, j | 0 <= i < j < |p.links| :: p.links[i] != p.links[j])
  {
    hide Parse, WholePage, Distinct, Exceeds;
    ExtractionShowsPage(events, resolve);
    DistinctShort(WholePage(events, resolve).links);
  }

  /** Everything between title tags that is not hidden. */
  function TitleData(events: seq<Event>, resolve: Resolver): string {
    if events == [] then "" else
    var front, e := events[..|events| - 1], events[|events| - 1];
    var w := WholePage(front, resolve);
    TitleData(front, resolve) + if e.Data? && w.hidden == [] && w.inTitle then e.text else ""
  }

  /** The title is collapsed as one text, however many elements and pieces it came in. */
  lemma {:induction false} TitleIsCollapsedWhole(events: seq<Event>, resolve: Resolver)
    ensures WholePage(events, resolve).title == Collapse(TitleData(events, resolve))
    ensures Parse(events, resolve).title == Cut(Collapse(TitleData(events, resolve)), TITLE_LIMIT)
  {
    hide Collapse, Absorb, WholeBoundary;
    ExtractionShowsPage(events, resolve);
    hide Parse, Exceeds, Distinct, Cut, Take;
    if events != [] {
      var front, e := events[..|events| - 1], events[|events| - 1];
      TitleIsCollapsedWhole(front, resolve);
      BoundaryKeepsTitle(WholePage(front, resolve));
      if e.Data? {
        CollapseAppend(TitleData(front, resolve), e.text);
      }
      assert TitleData(front, resolve) + "" == TitleData(front, resolve);
    } else {
      assert Collapse("") == "" by { NoText(); }
    }
  }

  lemma {:induction false} NoText()
    ensures Collapse("") == ""
  {
  }

  lemma {:induction false} BoundaryKeepsTitle(w: Whole)
    ensures WholeBoundary(w).title == w.title
  {
  }
}
