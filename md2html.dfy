/**
 * The event-stream rewriter of the Markdown converter: a pass over the
 * parser's events that swallows headings and their text, replaces each
 * heading by one HTML element carrying an anchor from the heading registry,
 * and hands the first text of a fenced code block to a syntax highlighter.
 *
 * `Rewriter.Step` is the per-event closure with its captured state as fields;
 * `Parse` drives it over a sequence of events. Both are proved against the
 * reference functions `Next` and `RunFrom`, and the properties of the
 * rewriting are proved about those functions.
 */
module Md2Html {
  import Heading

  datatype Option<T> = None | Some(value: T)

  datatype Result<T, E> = Ok(value: T) | Err(error: E)

  /** The Markdown heading levels `h1` to `h6`. */
  newtype HeadingLevel = x: int | 1 <= x <= 6 witness 1

  /** A parser event, reduced to the cases the rewriter tells apart. */
  datatype Event =
    | StartFencedCode(lang: string)    // a fenced code block opens, with its info string
    | StartHeading(level: HeadingLevel)
    | EndHeading(level: HeadingLevel)
    | Text(text: string)
    | Html(html: string)
    | Other(name: string)              // every other event, passed on as it is

  /** Highlights `text` written in language `lang`, or fails with a message. */
  type Highlighter = (string, string) -> Result<string, string>

  /**
   * The anchor the registry gives a heading of `level` titled `title`, given
   * the outline registered before it.
   */
  type AnchorFor = (seq<Heading.Heading>, HeadingLevel, string) -> string

  /** The element name of a heading level: `h1` to `h6`. */
  function Tag(level: HeadingLevel): (r: string)
    ensures |r| == 2 && r[0] == 'h' && '1' <= r[1] <= '6'
    ensures r[1] as int - 48 == level as int
  {
    "h" + [(48 + level as int) as char]
  }

  /** The element that replaces a heading. */
  function HeadingHtml(level: HeadingLevel, anchor: string, title: string): string {
    "<" + Tag(level) + " id=\"" + anchor + "\">" + title + "</" + Tag(level) + ">"
  }

  /** The first index at or after `from` holding a double quote, or `|s|` if there is none. */
  function FindQuote(s: string, from: nat): (j: nat)
    requires from <= |s|
    ensures from <= j <= |s| && (j < |s| ==> s[j] == '"')
    ensures forall k :: from <= k < j ==> s[k] != '"'
    decreases |s| - from
  {
    if from == |s| || s[from] == '"' then from else FindQuote(s, from + 1)
  }

  /**
   * Reads a heading element back: the level from the tag, the anchor up to
   * the first double quote, the title up to the closing tag.
   */
  function ParseHeadingHtml(s: string): Option<(HeadingLevel, string, string)> {
    if |s| < 15 || s[..2] != "<h" || !('1' <= s[2] <= '6') || s[3..8] != " id=\"" then None
    else
      var j := FindQuote(s, 8);
      if j + 7 > |s| || s[j..j + 2] != "\">" || s[|s| - 5..] != "</" + s[1..3] + ">" then None
      else Some(((s[2] as int - 48) as HeadingLevel, s[8..j], s[j + 2..|s| - 5]))
  }

  lemma FindQuoteAt(s: string, from: nat, j: nat)
    requires from <= j < |s| && s[j] == '"'
    requires forall k :: from <= k < j ==> s[k] != '"'
    ensures FindQuote(s, from) == j
  {
  }

  lemma Slices<T>(x: seq<T>, y: seq<T>, z: seq<T>)
    ensures (x + y + z)[..|x|] == x && (x + y + z)[|x|..|x| + |y|] == y && (x + y + z)[|x| + |y|..] == z
  {
  }

  /** Where the pieces of a heading element sit in it. */
  lemma HeadingHtmlShape(level: HeadingLevel, anchor: string, title: string)
    ensures var s, j := HeadingHtml(level, anchor, title), 8 + |anchor|;
      |s| == 15 + |anchor| + |title| &&
      s[..2] == "<h" && s[2] == Tag(level)[1] && s[1..3] == Tag(level) && s[3..8] == " id=\"" &&
      s[8..j] == anchor && s[j..j + 2] == "\">" && s[j] == '"' &&
      s[j + 2..|s| - 5] == title && s[|s| - 5..] == "</" + Tag(level) + ">"
  {
    var tag := Tag(level);
    var head := "<" + tag + " id=\"";
    var tail := "\">" + title + "</" + tag + ">";
    var s := HeadingHtml(level, anchor, title);
    assert s == head + anchor + tail;
    Slices(head, anchor, tail);
    Slices("\">", title, "</" + tag + ">");
    assert |head| == 8 && head[..2] == "<h" && head[1..3] == tag && head[3..8] == " id=\"";
  }

  /** The element of a heading whose anchor holds no double quote gives back its level, anchor and title. */
  lemma HeadingHtmlRoundTrip(level: HeadingLevel, anchor: string, title: string)
    requires '"' !in anchor
    ensures ParseHeadingHtml(HeadingHtml(level, anchor, title)) == Some((level, anchor, title))
  {
    var s, j := HeadingHtml(level, anchor, title), 8 + |anchor|;
    HeadingHtmlShape(level, anchor, title);
    forall k | 8 <= k < j ensures s[k] != '"' {
      assert s[k] == s[8..j][k - 8];
    }
    FindQuoteAt(s, 8, j);
    assert (s[2] as int - 48) as HeadingLevel == level;
  }

  /** The accumulated texts joined with no separator. */
  function Join(texts: seq<string>): string {
    if texts == [] then "" else texts[0] + Join(texts[1..])
  }

  /** What the first text of a code block becomes: the highlighted HTML, or the text itself if highlighting fails. */
  function Highlighted(highlight: Highlighter, lang: string, text: string): Event {
    match highlight(lang, text)
    case Ok(html) => Html(html)
    case Err(_) => Text(text)
  }

  // ---------------------------------------------------------------------------
  // The heading registry

  /** The registry of headings in document order; how it derives anchors is a parameter. */
  class Headings {
    var outline: seq<Heading.Heading>
    const anchorFor: AnchorFor

    constructor(anchorFor: AnchorFor)
      ensures outline == [] && this.anchorFor == anchorFor
    {
      outline := [];
      this.anchorFor := anchorFor;
    }

    /** Registers one heading at the end of the outline and returns its anchor. */
    method Add(level: HeadingLevel, title: string) returns (anchor: string)
      modifies this
      ensures anchor == anchorFor(old(outline), level, title)
      ensures outline == old(outline) + [Heading.Heading(level as nat, anchor, title)]
    {
      anchor := anchorFor(outline, level, title);
      outline := outline + [Heading.Heading(level as nat, anchor, title)];
    }

    /** The registered headings, in the order they were added. */
    method Finish() returns (headings: seq<Heading.Heading>)
      ensures headings == outline
    {
      headings := outline;
    }
  }

  // ---------------------------------------------------------------------------
  // The reference definition of one step

  /** The rewriter's state between two events. */
  datatype State = State(
    headingLevel: Option<HeadingLevel>,  // the level of the open heading, if any
    headingTexts: seq<string>,           // the texts seen inside it
    codeLanguage: Option<string>,        // the language of a code block whose text is still to come
    outline: seq<Heading.Heading>)       // what the registry holds

  const Init := State(None, [], None, [])

  /** The result of one step: the new state and the event passed on, if any. */
  datatype Stepped = Stepped(state: State, out: Option<Event>)

  /** The open heading's level after `e`: only heading starts and ends change it. */
  function LevelAfter(open: Option<HeadingLevel>, e: Event): Option<HeadingLevel> {
    match e
    case StartHeading(level) => Some(level)
    case EndHeading(_) => None
    case _ => open
  }

  /** Every heading end closes a heading of its own level. */
  predicate Paired(open: Option<HeadingLevel>, events: seq<Event>)
    decreases |events|
  {
    events == [] ||
    ((events[0].EndHeading? ==> open == Some(events[0].level)) &&
     Paired(LevelAfter(open, events[0]), events[1..]))
  }

  /** One step of the rewriter, with its cases tried in the source's order. */
  function Next(s: State, e: Event, highlight: Highlighter, anchorFor: AnchorFor): (r: Stepped)
    requires e.EndHeading? ==> s.headingLevel == Some(e.level)
    ensures r.state.headingLevel == LevelAfter(s.headingLevel, e)
  {
    match e
    case StartFencedCode(lang) =>
      Stepped(s.(codeLanguage := Some(lang)), Some(e))
    case StartHeading(level) =>
      Stepped(s.(headingLevel := Some(level), headingTexts := []), None)
    case EndHeading(level) =>
      var title := Join(s.headingTexts);
      var anchor := anchorFor(s.outline, level, title);
      Stepped(State(None, [], s.codeLanguage, s.outline + [Heading.Heading(level as nat, anchor, title)]),
              Some(Html(HeadingHtml(level, anchor, title))))
    case Text(text) =>
      if s.headingLevel.Some? then
        Stepped(s.(headingTexts := s.headingTexts + [text]), None)
      else if s.codeLanguage.Some? then
        Stepped(s.(codeLanguage := None), Some(Highlighted(highlight, s.codeLanguage.value, text)))
      else
        Stepped(s, Some(e))
    case _ =>
      Stepped(s, Some(e))
  }

  function Emitted(out: Option<Event>): seq<Event> {
    if out.Some? then [out.value] else []
  }

  /** The state after a run and every event it passed on, in order. */
  datatype Run = Run(state: State, out: seq<Event>)

  function RunFrom(s: State, events: seq<Event>, highlight: Highlighter, anchorFor: AnchorFor): Run
    requires Paired(s.headingLevel, events)
    decreases |events|
  {
    if events == [] then Run(s, [])
    else
      var step := Next(s, events[0], highlight, anchorFor);
      var rest := RunFrom(step.state, events[1..], highlight, anchorFor);
      Run(rest.state, Emitted(step.out) + rest.out)
  }

  // ---------------------------------------------------------------------------
  // The rewriter as the source writes it

  /** The state the per-event closure captures, as fields it updates. */
  class Rewriter {
    var headingLevel: Option<HeadingLevel>
    var headingTexts: seq<string>
    var codeLanguage: Option<string>
    const headings: Headings
    const highlight: Highlighter

    function Current(): State
      reads this, headings
    {
      State(headingLevel, headingTexts, codeLanguage, headings.outline)
    }

    constructor(highlight: Highlighter, anchorFor: AnchorFor)
      ensures Current() == Init
      ensures this.highlight == highlight && headings.anchorFor == anchorFor
      ensures fresh(headings)
    {
      headingLevel := None;
      headingTexts := [];
      codeLanguage := None;
      headings := new Headings(anchorFor);
      this.highlight := highlight;
    }

    /** Handles one event: updates the captured state and returns the event to pass on, if any. */
    method Step(e: Event) returns (out: Option<Event>)
      requires e.EndHeading? ==> headingLevel == Some(e.level)
      modifies this, headings
      ensures Current() == Next(old(Current()), e, highlight, headings.anchorFor).state
      ensures out == Next(old(Current()), e, highlight, headings.anchorFor).out
    {
      match e
      case StartFencedCode(lang) =>
        codeLanguage := Some(lang);
        out := Some(e);
      case StartHeading(level) =>
        headingLevel := Some(level);
        headingTexts := [];
        out := None;
      case EndHeading(level) =>
        var text := Join(headingTexts);
        var anchor := headings.Add(level, text);
        out := Some(Html(HeadingHtml(level, anchor, text)));
        headingLevel := None;
        headingTexts := [];
      case Text(text) =>
        if headingLevel.Some? {
          headingTexts := headingTexts + [text];
          out := None;
        } else if codeLanguage.Some? {
          out := Some(Highlighted(highlight, codeLanguage.value, text));
          codeLanguage := None;
        } else {
          out := Some(e);
        }
      case _ =>
        out := Some(e);
    }
  }

  /**
   * Runs the rewriter over the parser's events and returns the events it
   * passes on, for the HTML renderer, and the outline of the document.
   */
  method Parse(events: seq<Event>, highlight: Highlighter, anchorFor: AnchorFor)
    returns (output: seq<Event>, outline: seq<Heading.Heading>)
    requires Paired(None, events)
    ensures output == RunFrom(Init, events, highlight, anchorFor).out
    ensures outline == RunFrom(Init, events, highlight, anchorFor).state.outline
    ensures |output| <= |events|
    ensures Levels(outline) == EndLevels(events)
  {
    var rewriter := new Rewriter(highlight, anchorFor);
    ghost var whole := RunFrom(Init, events, highlight, anchorFor);
    output := [];
    assert events[0..] == events;
    for i := 0 to |events|
      invariant Paired(rewriter.Current().headingLevel, events[i..])
      invariant RunFrom(rewriter.Current(), events[i..], highlight, anchorFor).state == whole.state
      invariant output + RunFrom(rewriter.Current(), events[i..], highlight, anchorFor).out == whole.out
    {
      ghost var before := rewriter.Current();
      Heading.Suffix(events, i);
      var out := rewriter.Step(events[i]);
      RunStep(before, events[i..], highlight, anchorFor, output, whole);
      output := output + Emitted(out);
    }
    assert events[|events|..] == [];
    Heading.AppendEmpty(output);
    outline := rewriter.headings.Finish();
    RunLength(Init, events, highlight, anchorFor);
    RunOutline(Init, events, highlight, anchorFor);
  }

  // ---------------------------------------------------------------------------
  // The driver's loop

  /** One turn of the driver's loop, for the loop's invariant. */
  lemma RunStep(s: State, events: seq<Event>, highlight: Highlighter, anchorFor: AnchorFor,
                output: seq<Event>, whole: Run)
    requires events != [] && Paired(s.headingLevel, events)
    requires RunFrom(s, events, highlight, anchorFor).state == whole.state
    requires output + RunFrom(s, events, highlight, anchorFor).out == whole.out
    ensures var step := Next(s, events[0], highlight, anchorFor);
      Paired(step.state.headingLevel, events[1..]) &&
      RunFrom(step.state, events[1..], highlight, anchorFor).state == whole.state &&
      (output + Emitted(step.out)) + RunFrom(step.state, events[1..], highlight, anchorFor).out == whole.out
  {
    var step := Next(s, events[0], highlight, anchorFor);
    Heading.Assoc(output, Emitted(step.out), RunFrom(step.state, events[1..], highlight, anchorFor).out);
  }

  // ---------------------------------------------------------------------------
  // One step, case by case

  /** A fenced code block's start records its language and is passed on unchanged. */
  lemma NextFencedCode(s: State, lang: string, highlight: Highlighter, anchorFor: AnchorFor)
    ensures Next(s, StartFencedCode(lang), highlight, anchorFor)
            == Stepped(s.(codeLanguage := Some(lang)), Some(StartFencedCode(lang)))
  {
  }

  /** A heading's start is swallowed; it records the level and forgets any earlier texts. */
  lemma NextStartHeading(s: State, level: HeadingLevel, highlight: Highlighter, anchorFor: AnchorFor)
    ensures var r := Next(s, StartHeading(level), highlight, anchorFor);
      r.out == None && r.state.headingLevel == Some(level) && r.state.headingTexts == [] &&
      r.state.codeLanguage == s.codeLanguage && r.state.outline == s.outline
  {
  }

  /**
   * A heading's end registers exactly one heading, titled by the texts seen
   * inside it, passes on one HTML element with the registry's anchor, and
   * leaves no heading open.
   */
  lemma NextEndHeading(s: State, level: HeadingLevel, highlight: Highlighter, anchorFor: AnchorFor)
    requires s.headingLevel == Some(level)
    ensures var r := Next(s, EndHeading(level), highlight, anchorFor);
      var title := Join(s.headingTexts);
      var anchor := anchorFor(s.outline, level, title);
      r.out == Some(Html(HeadingHtml(level, anchor, title))) &&
      r.state.outline == s.outline + [Heading.Heading(level as nat, anchor, title)] &&
      r.state.headingLevel == None && r.state.headingTexts == [] &&
      r.state.codeLanguage == s.codeLanguage
  {
  }

  /** Inside a heading a text is collected and swallowed, even if a code block's language is pending. */
  lemma NextHeadingText(s: State, text: string, highlight: Highlighter, anchorFor: AnchorFor)
    requires s.headingLevel.Some?
    ensures Next(s, Text(text), highlight, anchorFor)
            == Stepped(s.(headingTexts := s.headingTexts + [text]), None)
  {
  }

  /**
   * Outside a heading, the first text after a code block's start is
   * highlighted, or passed on as it is if highlighting fails; either way the
   * pending language is cleared.
   */
  lemma NextCodeText(s: State, text: string, highlight: Highlighter, anchorFor: AnchorFor)
    requires s.headingLevel.None? && s.codeLanguage.Some?
    ensures var r := Next(s, Text(text), highlight, anchorFor);
      r.state == s.(codeLanguage := None) &&
      (highlight(s.codeLanguage.value, text).Ok? ==> r.out == Some(Html(highlight(s.codeLanguage.value, text).value))) &&
      (highlight(s.codeLanguage.value, text).Err? ==> r.out == Some(Text(text)))
  {
  }

  /** Every other event leaves the state alone and is passed on unchanged. */
  lemma NextOther(s: State, e: Event, highlight: Highlighter, anchorFor: AnchorFor)
    requires e.Html? || e.Other? || (e.Text? && s.headingLevel.None? && s.codeLanguage.None?)
    ensures Next(s, e, highlight, anchorFor) == Stepped(s, Some(e))
  {
  }

  // ---------------------------------------------------------------------------
  // Whole runs

  /** The rewriter passes on at most one event per event it reads. */
  lemma {:induction false} RunLength(s: State, events: seq<Event>, highlight: Highlighter, anchorFor: AnchorFor)
    requires Paired(s.headingLevel, events)
    ensures |RunFrom(s, events, highlight, anchorFor).out| <= |events|
    decreases |events|
  {
    if events != [] {
      var step := Next(s, events[0], highlight, anchorFor);
      RunLength(step.state, events[1..], highlight, anchorFor);
    }
  }

  /**
   * What one step passes on: the event it read or a new HTML event, never a
   * heading start or end, and always the event itself when it is a code
   * block's start or an event the rewriter does not tell apart.
   */
  lemma NextOutput(s: State, e: Event, highlight: Highlighter, anchorFor: AnchorFor)
    requires e.EndHeading? ==> s.headingLevel == Some(e.level)
    ensures var r := Next(s, e, highlight, anchorFor);
      (r.out.Some? ==> (r.out.value == e || r.out.value.Html?) &&
                       !r.out.value.StartHeading? && !r.out.value.EndHeading?) &&
      (e.StartFencedCode? || e.Other? ==> r.out == Some(e))
  {
  }

  /** No heading start or end reaches the renderer. */
  lemma {:induction false} RunNoHeadingEvents(s: State, events: seq<Event>, highlight: Highlighter, anchorFor: AnchorFor)
    requires Paired(s.headingLevel, events)
    ensures forall o :: o in RunFrom(s, events, highlight, anchorFor).out ==> !o.StartHeading? && !o.EndHeading?
    decreases |events|
  {
    if events != [] {
      var step := Next(s, events[0], highlight, anchorFor);
      NextOutput(s, events[0], highlight, anchorFor);
      RunNoHeadingEvents(step.state, events[1..], highlight, anchorFor);
    }
  }

  /** Every event passed on is an event that was read, or an HTML event made by the rewriter. */
  lemma {:induction false} RunImage(s: State, events: seq<Event>, highlight: Highlighter, anchorFor: AnchorFor)
    requires Paired(s.headingLevel, events)
    ensures forall o :: o in RunFrom(s, events, highlight, anchorFor).out ==> o.Html? || o in events
    decreases |events|
  {
    if events != [] {
      var step := Next(s, events[0], highlight, anchorFor);
      NextOutput(s, events[0], highlight, anchorFor);
      RunImage(step.state, events[1..], highlight, anchorFor);
      forall o | o in events[1..] ensures o in events {
        var j :| 0 <= j < |events[1..]| && events[1..][j] == o;
        assert events[j + 1] == o;
      }
    }
  }

  /** The events the rewriter passes on in every state: code block starts and everything it does not tell apart. */
  function Kept(events: seq<Event>): seq<Event> {
    if events == [] then []
    else (if events[0].StartFencedCode? || events[0].Other? then [events[0]] else []) + Kept(events[1..])
  }

  lemma {:induction false} KeptAppend(a: seq<Event>, b: seq<Event>)
    ensures Kept(a + b) == Kept(a) + Kept(b)
    decreases |a|
  {
    if a == [] {
      Heading.AppendEmpty(b);
      Heading.AppendEmpty(Kept(b));
    } else {
      assert (a + b)[0] == a[0] && (a + b)[1..] == a[1..] + b;
      KeptAppend(a[1..], b);
      Heading.Assoc(if a[0].StartFencedCode? || a[0].Other? then [a[0]] else [], Kept(a[1..]), Kept(b));
    }
  }

  lemma KeptOne(e: Event)
    ensures Kept([e]) == if e.StartFencedCode? || e.Other? then [e] else []
  {
    Heading.ConsParts(e, []);
    Heading.AppendEmpty(if e.StartFencedCode? || e.Other? then [e] else []);
  }

  lemma KeptStep(s: State, e: Event, highlight: Highlighter, anchorFor: AnchorFor)
    requires e.EndHeading? ==> s.headingLevel == Some(e.level)
    ensures Kept(Emitted(Next(s, e, highlight, anchorFor).out)) == Kept([e])
  {
    var r := Next(s, e, highlight, anchorFor);
    NextOutput(s, e, highlight, anchorFor);
    KeptOne(e);
    if r.out.Some? {
      KeptOne(r.out.value);
    }
  }

  /** Those events all reach the renderer, in their order. */
  lemma {:induction false} RunKept(s: State, events: seq<Event>, highlight: Highlighter, anchorFor: AnchorFor)
    requires Paired(s.headingLevel, events)
    ensures Kept(RunFrom(s, events, highlight, anchorFor).out) == Kept(events)
    decreases |events|
  {
    if events != [] {
      var step := Next(s, events[0], highlight, anchorFor);
      var rest := RunFrom(step.state, events[1..], highlight, anchorFor).out;
      RunKept(step.state, events[1..], highlight, anchorFor);
      KeptAppend(Emitted(step.out), rest);
      KeptStep(s, events[0], highlight, anchorFor);
      KeptAppend([events[0]], events[1..]);
      Heading.ConsParts(events[0], events[1..]);
      assert [events[0]] + events[1..] == events;
    }
  }

  /**
   * Outside a heading and with no language pending, texts, HTML and every
   * other event the rewriter does not tell apart all reach the renderer
   * unchanged and in order, and the state stays as it is.
   */
  lemma {:induction false} RunPlain(s: State, events: seq<Event>, highlight: Highlighter, anchorFor: AnchorFor)
    requires s.headingLevel.None? && s.codeLanguage.None?
    requires forall k :: 0 <= k < |events| ==> events[k].Text? || events[k].Html? || events[k].Other?
    ensures Paired(s.headingLevel, events)
    ensures RunFrom(s, events, highlight, anchorFor) == Run(s, events)
    decreases |events|
  {
    if events != [] {
      forall k | 0 <= k < |events[1..]|
        ensures events[1..][k].Text? || events[1..][k].Html? || events[1..][k].Other?
      {
        assert events[1..][k] == events[k + 1];
      }
      RunPlain(s, events[1..], highlight, anchorFor);
      Heading.ConsParts(events[0], events[1..]);
      assert [events[0]] + events[1..] == events;
    }
  }

  function Levels(hs: seq<Heading.Heading>): seq<nat> {
    if hs == [] then [] else [hs[0].level] + Levels(hs[1..])
  }

  /** The levels of the heading ends among `events`, in order. */
  function EndLevels(events: seq<Event>): seq<nat> {
    if events == [] then []
    else (if events[0].EndHeading? then [events[0].level as nat] else []) + EndLevels(events[1..])
  }

  lemma {:induction false} LevelsAppend(a: seq<Heading.Heading>, b: seq<Heading.Heading>)
    ensures Levels(a + b) == Levels(a) + Levels(b)
    decreases |a|
  {
    if a == [] {
      Heading.AppendEmpty(b);
      Heading.AppendEmpty(Levels(b));
    } else {
      assert (a + b)[0] == a[0] && (a + b)[1..] == a[1..] + b;
      LevelsAppend(a[1..], b);
      Heading.Assoc([a[0].level], Levels(a[1..]), Levels(b));
    }
  }

  /**
   * The registry gains exactly one heading per heading end, in document
   * order, at the level of that end; what it held before is kept.
   */
  lemma {:induction false} RunOutline(s: State, events: seq<Event>, highlight: Highlighter, anchorFor: AnchorFor)
    requires Paired(s.headingLevel, events)
    ensures var outline := RunFrom(s, events, highlight, anchorFor).state.outline;
      s.outline <= outline && Levels(outline) == Levels(s.outline) + EndLevels(events)
    decreases |events|
  {
    if events == [] {
      Heading.AppendEmpty(Levels(s.outline));
    } else {
      var step := Next(s, events[0], highlight, anchorFor);
      RunOutline(step.state, events[1..], highlight, anchorFor);
      var e := events[0];
      var added: seq<nat> := if e.EndHeading? then [e.level as nat] else [];
      if e.EndHeading? {
        var h := step.state.outline[|s.outline|];
        assert step.state.outline == s.outline + [h];
        LevelsAppend(s.outline, [h]);
        assert Levels([h]) == [h.level] + Levels([]);
      }
      assert Levels(step.state.outline) == Levels(s.outline) + added;
      Heading.Assoc(Levels(s.outline), added, EndLevels(events[1..]));
    }
  }

  // ---------------------------------------------------------------------------
  // Headings and code blocks as the parser delivers them

  /** The texts among `events`, in order. */
  function TextsOf(events: seq<Event>): seq<string> {
    if events == [] then []
    else (if events[0].Text? then [events[0].text] else []) + TextsOf(events[1..])
  }

  /** The events among `events` that are not texts, in order. */
  function NonText(events: seq<Event>): seq<Event> {
    if events == [] then []
    else (if events[0].Text? then [] else [events[0]]) + NonText(events[1..])
  }

  /** The inline content of a heading: texts, raw HTML and other inline events. */
  predicate Inline(events: seq<Event>) {
    forall k :: 0 <= k < |events| ==> events[k].Text? || events[k].Html? || events[k].Other?
  }

  lemma {:induction false} JoinAppend(texts: seq<string>, text: string)
    ensures Join(texts + [text]) == Join(texts) + text
    decreases |texts|
  {
    if texts == [] {
      assert Join([text]) == text + Join([]);
      Heading.AppendEmpty(text);
    } else {
      assert (texts + [text])[0] == texts[0] && (texts + [text])[1..] == texts[1..] + [text];
      JoinAppend(texts[1..], text);
      Heading.Assoc(texts[0], Join(texts[1..]), text);
    }
  }

  /**
   * From inside a heading, its inline content followed by its end: the
   * non-text events are passed on first, then one HTML element whose title
   * joins every text collected, in order.
   */
  lemma {:induction false} HeadingRest(s: State, inner: seq<Event>, level: HeadingLevel,
                                       highlight: Highlighter, anchorFor: AnchorFor)
    requires s.headingLevel == Some(level) && Inline(inner)
    ensures Paired(s.headingLevel, inner + [EndHeading(level)])
    ensures var title := Join(s.headingTexts + TextsOf(inner));
      var anchor := anchorFor(s.outline, level, title);
      RunFrom(s, inner + [EndHeading(level)], highlight, anchorFor)
      == Run(State(None, [], s.codeLanguage, s.outline + [Heading.Heading(level as nat, anchor, title)]),
             NonText(inner) + [Html(HeadingHtml(level, anchor, title))])
    decreases |inner|
  {
    var events := inner + [EndHeading(level)];
    if inner == [] {
      assert events == [EndHeading(level)];
      Heading.AppendEmpty(s.headingTexts);
    } else {
      var e := inner[0];
      assert events[0] == e && events[1..] == inner[1..] + [EndHeading(level)];
      var step := Next(s, e, highlight, anchorFor);
      assert Inline(inner[1..]) by {
        forall k | 0 <= k < |inner[1..]|
          ensures inner[1..][k].Text? || inner[1..][k].Html? || inner[1..][k].Other?
        {
          assert inner[1..][k] == inner[k + 1];
        }
      }
      HeadingRest(step.state, inner[1..], level, highlight, anchorFor);
      if e.Text? {
        Heading.Assoc(s.headingTexts, [e.text], TextsOf(inner[1..]));
      } else {
        Heading.AppendEmpty(TextsOf(inner[1..]));
      }
    }
  }

  /**
   * A whole heading, from outside any heading: one HTML element and one
   * outline entry, titled by the heading's texts joined; the other inline
   * events inside it are passed on before the element.
   */
  lemma HeadingBlock(s: State, level: HeadingLevel, inner: seq<Event>,
                     highlight: Highlighter, anchorFor: AnchorFor)
    requires s.headingLevel.None? && Inline(inner)
    ensures Paired(None, [StartHeading(level)] + (inner + [EndHeading(level)]))
    ensures var title := Join(TextsOf(inner));
      var anchor := anchorFor(s.outline, level, title);
      RunFrom(s, [StartHeading(level)] + (inner + [EndHeading(level)]), highlight, anchorFor)
      == Run(State(None, [], s.codeLanguage, s.outline + [Heading.Heading(level as nat, anchor, title)]),
             NonText(inner) + [Html(HeadingHtml(level, anchor, title))])
  {
    var inside := s.(headingLevel := Some(level), headingTexts := []);
    HeadingRest(inside, inner, level, highlight, anchorFor);
    Heading.ConsParts(StartHeading(level), inner + [EndHeading(level)]);
    Heading.AppendEmpty(TextsOf(inner));
    Heading.AppendEmpty(NonText(inner) + [Html(HeadingHtml(level, anchorFor(s.outline, level, Join(TextsOf(inner))), Join(TextsOf(inner))))]);
  }

  /**
   * Outside a heading, a fenced code block whose text arrives in two
   * events: only the first is given to the highlighter, and the second is
   * passed on as it is.
   */
  lemma CodeBlock(s: State, lang: string, first: string, second: string,
                  highlight: Highlighter, anchorFor: AnchorFor)
    requires s.headingLevel.None?
    ensures Paired(None, [StartFencedCode(lang), Text(first), Text(second)])
    ensures RunFrom(s, [StartFencedCode(lang), Text(first), Text(second)], highlight, anchorFor)
            == Run(s.(codeLanguage := None),
                   [StartFencedCode(lang), Highlighted(highlight, lang, first), Text(second)])
  {
    var events := [StartFencedCode(lang), Text(first), Text(second)];
    var pending, done := s.(codeLanguage := Some(lang)), s.(codeLanguage := None);
    assert events[1..] == [Text(first), Text(second)] && events[1..][1..] == [Text(second)];
    assert [Text(second)][1..] == [];
    assert Paired(None, [Text(second)]);
    assert Paired(None, [Text(first), Text(second)]);
    assert RunFrom(done, [Text(second)], highlight, anchorFor) == Run(done, [Text(second)]);
    assert RunFrom(pending, [Text(first), Text(second)], highlight, anchorFor)
        == Run(done, [Highlighted(highlight, lang, first)] + [Text(second)]);
  }
}
