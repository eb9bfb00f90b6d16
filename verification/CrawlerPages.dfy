/** What a page's parts are, told from its words and its elements. */
module CrawlerPages {
  import opened Common
  import opened Text
  import opened Crawler

  // ------------------------------------------------------------------ collapsed text, word by word

  /** A word and the white space behind it. */
  datatype Run = Run(word: string, gap: string)

  predicate GoodRun(r: Run) {
    r.word != "" && All(r.word, IsVisible) && r.gap != "" && All(r.gap, IsSpace)
  }

  predicate GoodRuns(runs: seq<Run>) {
    forall i | 0 <= i < |runs| :: GoodRun(runs[i])
  }

  /** White space, words with white space behind them, and a last word; first and last may be missing. */
  function Spread(lead: string, runs: seq<Run>, last: string): string {
    if runs == [] then lead + last
    else Spread(lead, runs[..|runs| - 1], "") + (runs[|runs| - 1].word + (runs[|runs| - 1].gap + last))
  }

  /** The same words with one blank for each white space. */
  function Blanks(lead: string, runs: seq<Run>, last: string): string {
    if runs == [] then (if lead == "" then "" else " ") + last
    else Blanks(lead, runs[..|runs| - 1], "") + (runs[|runs| - 1].word + (" " + last))
  }

  lemma {:induction false} CollapseWord(s: string, word: string)
    requires All(word, IsVisible)
    ensures Collapse(s + word) == Collapse(s) + word
    ensures word != "" ==> !EndsInBlank(Collapse(s + word))
  {
    hide IsSpace;
    if word == "" {
      assert s + word == s;
    } else {
      var front, c := word[..|word| - 1], word[|word| - 1];
      assert (s + word)[..|s + word| - 1] == s + front && (s + word)[|s + word| - 1] == c;
      CollapseWord(s, front);
      assert !IsSpace(c) && IsSpace(' ') by { BlankIsSpace(); }
    }
  }

  lemma {:induction false} BlankIsSpace()
    ensures IsSpace(' ')
  {
  }

  lemma {:induction false} CollapseGap(s: string, gap: string)
    requires gap != "" && All(gap, IsSpace) && !EndsInBlank(Collapse(s))
    ensures Collapse(s + gap) == Collapse(s) + " "
  {
    hide IsSpace;
    var front, c := gap[..|gap| - 1], gap[|gap| - 1];
    assert (s + gap)[..|s + gap| - 1] == s + front && (s + gap)[|s + gap| - 1] == c;
    if front == "" {
      assert s + front == s;
    } else {
      CollapseGap(s, front);
    }
  }

  lemma {:induction false} CollapseRun(s: string, r: Run)
    requires GoodRun(r)
    ensures Collapse(s + (r.word + r.gap)) == Collapse(s) + (r.word + " ")
  {
    hide Collapse, IsSpace, EndsInBlank;
    CollapseWord(s, r.word);
    CollapseGap(s + r.word, r.gap);
    assert s + (r.word + r.gap) == (s + r.word) + r.gap;
    assert (Collapse(s) + r.word) + " " == Collapse(s) + (r.word + " ");
  }

  lemma {:induction false} CollapseLead(lead: string)
    requires All(lead, IsSpace)
    ensures Collapse(lead) == if lead == "" then "" else " "
  {
    hide IsSpace;
    if lead != "" {
      assert "" + lead == lead && Collapse("") == "";
      CollapseGap("", lead);
    }
  }

  /** Collapsing leaves the words as they are and makes every white space between them one blank. */
  lemma {:induction false} CollapseKeepsWords(lead: string, runs: seq<Run>, last: string)
    requires All(lead, IsSpace) && GoodRuns(runs) && All(last, IsVisible)
    ensures Collapse(Spread(lead, runs, last)) == Blanks(lead, runs, last)
    decreases |runs|, |last|
  {
    hide Collapse, IsSpace, GoodRun;
    if runs == [] {
      CollapseLead(lead);
      CollapseWord(lead, last);
    } else {
      var front, r := runs[..|runs| - 1], runs[|runs| - 1];
      assert GoodRun(r);
      var before := Spread(lead, front, "");
      assert All("", IsVisible);
      CollapseKeepsWords(lead, front, "");
      CollapseRun(before, r);
      CollapseWord(before + (r.word + r.gap), last);
      assert Spread(lead, runs, last) == (before + (r.word + r.gap)) + last;
      assert Blanks(lead, runs, last) == (Blanks(lead, front, "") + (r.word + " ")) + last;
    }
  }

  // ------------------------------------------------------------------ the text, with its boundaries

  /** Elements whose content is not text. */
  const HIDING := {"script", "style", "template"}

  /** A tag that separates text: visible, outside the title, and not the title's end. */
  predicate Separates(w: Whole, e: Event) {
    && w.hidden == [] && !w.inTitle
    && ((e.StartTag? && e.tag !in HIDING) || (e.EndTag? && e.tag != "title"))
  }

  /** The visible data outside the title, with a blank for every tag that separates text. */
  function TextData(events: seq<Event>, resolve: Resolver): string {
    if events == [] then "" else
    var before, e := TextData(events[..|events| - 1], resolve), events[|events| - 1];
    var w := WholePage(events[..|events| - 1], resolve);
    before + if e.Data? && w.hidden == [] && !w.inTitle then e.text
             else if Separates(w, e) && before != "" then " " else ""
  }

  lemma {:induction false} CollapsesToNothing(s: string)
    ensures Collapse(s) == "" <==> s == ""
  {
  }

  lemma {:induction false} CollapseBlank(s: string)
    ensures Collapse(s + " ") == if EndsInBlank(Collapse(s)) then Collapse(s) else Collapse(s) + " "
  {
    assert (s + " ")[..|s|] == s;
  }

  lemma {:induction false} TextAfter(w: Whole, e: Event, resolve: Resolver)
    ensures WholeStep(w, e, resolve).text ==
            if e.Data? && w.hidden == [] && !w.inTitle then Absorb(w.text, e.text)
            else if Separates(w, e) && w.text != "" && !EndsInBlank(w.text) then w.text + " "
            else w.text
  {
    hide Absorb, EndsInBlank;
  }

  /** The page's text is its visible data, separated by its tags and collapsed as one text. */
  lemma {:induction false} TextIsCollapsedWhole(events: seq<Event>, resolve: Resolver)
    ensures WholePage(events, resolve).text == Collapse(TextData(events, resolve))
    ensures Parse(events, resolve).text == Cut(Collapse(TextData(events, resolve)), TEXT_LIMIT)
  {
    hide Collapse, Absorb, EndsInBlank, WholeStep, Separates;
    ExtractionShowsPage(events, resolve);
    hide Parse, Exceeds, Distinct, Cut, Crawler.Take, LooseBlank;
    if events == [] {
      CollapsesToNothing("");
    } else {
      var front, e := events[..|events| - 1], events[|events| - 1];
      TextIsCollapsedWhole(front, resolve);
      var w, t := WholePage(front, resolve), TextData(front, resolve);
      TextAfter(w, e, resolve);
      CollapsesToNothing(t);
      CollapseBlank(t);
      if e.Data? {
        CollapseAppend(t, e.text);
      }
      assert t + "" == t;
    }
  }

  // ------------------------------------------------------------------ hidden elements

  /** Neither the end of the hidden element nor the start of another one. */
  predicate StaysHidden(tag: string, e: Event) {
    match e case StartTag(t, _) => t !in HIDING case EndTag(t) => t != tag case Data(_) => true
  }

  lemma {:induction false} HiddenIgnores(before: seq<Event>, inside: seq<Event>, tag: string, resolve: Resolver)
    requires var p := Parse(before, resolve); p.hidden != [] && p.hidden[|p.hidden| - 1] == tag
    requires forall i | 0 <= i < |inside| :: StaysHidden(tag, inside[i])
    ensures Parse(before + inside, resolve) == Parse(before, resolve)
    decreases |inside|
  {
    hide AddLink, Boundary, Absorb;
    if inside == [] {
      assert before + inside == before;
    } else {
      var n := |inside| - 1;
      assert (before + inside)[..|before + inside| - 1] == before + inside[..n];
      assert (before + inside)[|before + inside| - 1] == inside[n];
      HiddenIgnores(before, inside[..n], tag, resolve);
      assert StaysHidden(tag, inside[n]);
    }
  }

  lemma {:induction false} ParseLast(events: seq<Event>, e: Event, resolve: Resolver)
    ensures Parse(events + [e], resolve) == Step(Parse(events, resolve), e, resolve)
  {
    assert (events + [e])[..|events|] == events;
    hide Step;
  }

  lemma {:induction false} HidesAndShows(p: Page, tag: string, href: Option<string>, resolve: Resolver)
    requires IsHiding(tag)
    ensures OnStart(p, tag, href, resolve) == p.(hidden := p.hidden + [tag])
    ensures OnEnd(p.(hidden := p.hidden + [tag]), tag) == p
  {
    assert (p.hidden + [tag])[..|p.hidden|] == p.hidden;
  }

  /** A script, style or template with whatever is in it leaves nothing behind. */
  lemma {:induction false} HiddenLeavesNothing(
      before: seq<Event>, tag: string, href: Option<string>, inside: seq<Event>, resolve: Resolver)
    requires tag in HIDING && forall i | 0 <= i < |inside| :: StaysHidden(tag, inside[i])
    ensures Parse(((before + [StartTag(tag, href)]) + inside) + [EndTag(tag)], resolve) == Parse(before, resolve)
  {
    hide Parse, OnStart, OnEnd;
    var p, start := Parse(before, resolve), before + [StartTag(tag, href)];
    ParseLast(before, StartTag(tag, href), resolve);
    HidesAndShows(p, tag, href, resolve);
    HiddenIgnores(start, inside, tag, resolve);
    ParseLast(start + inside, EndTag(tag), resolve);
  }

  // ------------------------------------------------------------------ links and title

  /** The target of a visible link whose reference is not too long and resolves. */
  function TargetOf(w: Whole, e: Event, resolve: Resolver): seq<string> {
    if e.StartTag? && e.tag == "a" && w.hidden == [] && e.href.Some? && 0 < |e.href.value| <= HREF_LIMIT
       && resolve(e.href.value).Some?
    then [resolve(e.href.value).value] else []
  }

  function Targets(events: seq<Event>, resolve: Resolver): seq<string> {
    if events == [] then [] else
    var front, e := events[..|events| - 1], events[|events| - 1];
    Targets(front, resolve) + TargetOf(WholePage(front, resolve), e, resolve)
  }

  predicate LongReference(w: Whole, e: Event) {
    e.StartTag? && e.tag == "a" && w.hidden == [] && e.href.Some? && |e.href.value| > HREF_LIMIT
  }

  predicate AnyLongReference(events: seq<Event>, resolve: Resolver) {
    exists k :: 0 <= k < |events| && LongReference(WholePage(events[..k], resolve), events[k])
  }

  lemma {:induction false} LinksAfter(w: Whole, e: Event, resolve: Resolver)
    ensures WholeStep(w, e, resolve).links == w.links + TargetOf(w, e, resolve)
    ensures WholeStep(w, e, resolve).longHref == (w.longHref || LongReference(w, e))
  {
    hide Absorb, EndsInBlank;
    assert w.links + [] == w.links;
  }

  /** The page's links are the targets of its visible links, in order; too long references are noticed. */
  lemma {:induction false} LinksAreTargets(events: seq<Event>, resolve: Resolver)
    ensures WholePage(events, resolve).links == Targets(events, resolve)
    ensures WholePage(events, resolve).longHref <==> AnyLongReference(events, resolve)
  {
    hide WholeStep, TargetOf, LongReference;
    if events != [] {
      var n := |events| - 1;
      var front, e := events[..n], events[n];
      LinksAreTargets(front, resolve);
      LinksAfter(WholePage(front, resolve), e, resolve);
      hide WholePage, Targets;
      LongStep(front, e, resolve);
      assert events == front + [e];
    }
  }

  lemma {:induction false} LongStep(front: seq<Event>, e: Event, resolve: Resolver)
    ensures AnyLongReference(front + [e], resolve) <==>
            AnyLongReference(front, resolve) || LongReference(WholePage(front, resolve), e)
  {
    hide WholePage, LongReference;
    var events := front + [e];
    assert events[..|front|] == front;
    forall k: nat | k < |front| ensures events[..k] == front[..k] && events[k] == front[k] {
    }
    if AnyLongReference(front, resolve) {
      var k :| 0 <= k < |front| && LongReference(WholePage(front[..k], resolve), front[k]);
      assert LongReference(WholePage(events[..k], resolve), events[k]);
    }
    if LongReference(WholePage(front, resolve), e) {
      assert LongReference(WholePage(events[..|front|], resolve), events[|front|]);
    }
  }

  /** A visible tag of the title. */
  predicate TitleTag(w: Whole, e: Event, start: bool) {
    w.hidden == [] && (if start then e.StartTag? else e.EndTag?) && e.tag == "title"
  }

  lemma {:induction false} TitleAfter(w: Whole, e: Event, resolve: Resolver)
    ensures WholeStep(w, e, resolve).inTitle ==
            (TitleTag(w, e, true) || (w.inTitle && !TitleTag(w, e, false)))
  {
    hide Absorb, EndsInBlank;
  }

  /** The title is open since a visible start tag of it, with no visible end tag after that. */
  ghost predicate OpenSince(events: seq<Event>, k: nat, resolve: Resolver) {
    && k < |events| && TitleTag(WholePage(events[..k], resolve), events[k], true)
    && forall j: nat | k < j < |events| :: !TitleTag(WholePage(events[..j], resolve), events[j], false)
  }

  lemma {:induction false} OpenStep(front: seq<Event>, e: Event, k: nat, resolve: Resolver)
    requires k < |front|
    ensures OpenSince(front + [e], k, resolve) <==>
            OpenSince(front, k, resolve) && !TitleTag(WholePage(front, resolve), e, false)
  {
    hide WholePage, TitleTag;
    var events := front + [e];
    assert events[..|front|] == front;
    forall j: nat | j < |front| ensures events[..j] == front[..j] && events[j] == front[j] {
    }
    assert events[|front|] == e;
  }

  /** Text is taken for the title exactly between its visible tags. */
  lemma {:induction false} TitleIsOpen(events: seq<Event>, resolve: Resolver)
    ensures WholePage(events, resolve).inTitle <==> exists k: nat :: OpenSince(events, k, resolve)
  {
    hide WholeStep, TitleTag;
    if events != [] {
      var n := |events| - 1;
      var front, e := events[..n], events[n];
      assert events == front + [e];
      TitleIsOpen(front, resolve);
      var w := WholePage(front, resolve);
      TitleAfter(w, e, resolve);
      TagsDiffer(w, e);
      assert OpenSince(events, n, resolve) <==> TitleTag(w, e, true) by { hide WholePage; }
      hide WholePage, OpenSince;
      forall k: nat | k < n
        ensures OpenSince(events, k, resolve) <==> OpenSince(front, k, resolve) && !TitleTag(w, e, false)
      {
        OpenStep(front, e, k, resolve);
      }
      OpenWithin(events, resolve);
      OpenWithin(front, resolve);
    }
  }

  lemma {:induction false} OpenWithin(events: seq<Event>, resolve: Resolver)
    ensures forall k: nat | OpenSince(events, k, resolve) :: k < |events|
  {
    hide WholePage, TitleTag;
  }

  lemma {:induction false} TagsDiffer(w: Whole, e: Event)
    ensures !(TitleTag(w, e, true) && TitleTag(w, e, false))
  {
  }
}
