# markdown-to-standalone-html: table of contents and event rewriter

A Dafny model of the two algorithmic parts of a converter that turns a Markdown
document into one self-contained HTML page:

- **The table-of-contents builder** (`heading.dfy`, module `Heading`). It turns
  the flat outline of a document into nested `<ul>`/`<li>` HTML. It makes one
  pass over the headings and keeps one counter, the level of the innermost open
  list. `ToHtmlToc` keeps the source's loops: one over the headings, the two
  `while` loops inside it that step the counter up or down, and the final loop
  that closes what is still open. It is proved equal to the rendering of `Toc`,
  a reference definition that lists the pieces the builder appends (open a list,
  close an item and its list, close an item, open an item with a link). The
  properties of the output are proved about `Toc`:
  - lists are balanced;
  - every item sits at the nesting depth of its heading's level;
  - there is one item per heading, in order;
  - the output is empty exactly when the outline is;
  - both unit-test outlines give exactly the expected strings.
- **The event rewriter** (`md2html.dfy`, module `Md2Html`). It is the closure the
  converter applies to the Markdown parser's event stream. It swallows heading
  starts and the text inside a heading. At a heading's end it registers the
  heading and emits one `<hN id="anchor">title</hN>` HTML event. It hands the
  first text after a fenced code block's start to a syntax highlighter, and it
  passes every other event on unchanged.
  - The closure's captured state is the class `Rewriter`. Its fields are the open
    heading's level, the texts collected so far and the pending code language.
    The heading registry is the class `Headings`.
  - `Rewriter.Step` handles one event. `Parse` drives it over the events.
  - Both are proved against the reference step function `Next` and the run
    function `RunFrom`. The properties are proved about those functions:
    - the outline gains one entry per heading end, in order;
    - no heading event reaches the renderer;
    - at most one event comes out per event read;
    - code block starts and the events the rewriter does not tell apart keep
      their order;
    - outside headings and code blocks, texts and HTML pass through unchanged
      and in order as well;
    - a whole heading becomes one element titled by its joined texts;
    - only the first text of a code block is highlighted;
    - the heading element can be read back.

Two behaviours of the code are worth knowing. Both are proved rather than assumed:

- **A heading that skips levels closes an item that was never opened.**
  `JumpClosesExtraItem` shows this for a level-1 heading followed by a level-3
  one: the output has two `<li>` and three `</li>`. `TocItemsClosed` gives the
  general count: the item closings are the number of headings plus the number of
  skipped levels. So every item is closed exactly once if, and only if, no heading
  is more than one level deeper than the one before it. The lists themselves stay
  balanced for every outline (`TocBalanced`).
- **Non-text events inside a heading are not part of its title.** Examples are
  emphasis tags, inline code and links. They are passed on before the heading's
  element, and only plain text events make up the title (`HeadingBlock`). This
  differs from a design in which the heading's inline content stays inside it.
  The model follows the code.

The heading titles and TOC labels are emitted without escaping HTML characters,
as in the source.

## Model

| member | source | states |
|---|---|---|
| Heading.ToHtmlToc | src/heading.rs:10-44 | the builder's string is exactly the rendering of the reference fragments `Toc(headings)`; an empty outline gives the empty string |
| Heading.AppendHeading | src/heading.rs:16-35 | one turn of the loop appends the fragments for the step from the last level to the heading's level, then the heading's link, and leaves the counter at the heading's level (both branches) |
| Heading.CloseLists | src/heading.rs:38-41 | the final loop appends one `</li>\n</ul>\n` per level still open and returns the counter at 0 |
| Heading.TransitionShape | src/heading.rs:16-29 | a rise by k emits exactly k list openings and nothing else; a fall by k >= 0 emits exactly k list closings followed by one item closing |
| Heading.TocFromWellNested | src/heading.rs:15-41 | from any starting level the fragments never close a list when none is open, put every item at the depth of its heading's level, and end with every list closed |
| Heading.WellNestedBalance | src/heading.rs:38-41 | a walk that ends with every list closed closes as many lists as it opened plus those open at its start |
| Heading.TocBalanced | src/heading.rs:15-41 | for every outline the table of contents is well nested and opens as many lists as it closes |
| Heading.TocFromItems | src/heading.rs:15-35 | from any starting level, each heading contributes exactly one link item, in outline order |
| Heading.TocItems | src/heading.rs:15-35 | the items of the table of contents are exactly the outline's headings, in order, with anchor and title as given |
| Heading.TocEmpty | src/heading.rs:11-43 | the output is the empty string if and only if the outline is empty |
| Heading.NoSkipsSkipped | src/heading.rs:17-22 | no heading is more than one level deeper than the one before it if and only if no level is skipped |
| Heading.TocFromClosings | src/heading.rs:16-41 | the item closings number the headings, plus the starting level, plus one per skipped level |
| Heading.TocItemsClosed | src/heading.rs:16-41 | item closings equal the items plus the skipped levels, and equal the items exactly when no level is skipped |
| Heading.JumpClosesExtraItem | src/heading.rs:17-29 | a level-1 heading followed by a level-3 one yields two items but three item closings |
| Heading.Level2Shape | src/heading.rs:46-91 | any outline with the first test's levels (1, 1, 2, 2, 1) renders as the test's sequence of list openings, links and closings |
| Heading.Level3Shape | src/heading.rs:93-153 | any outline with the second test's levels (1, 1, 2, 2, 3, 3, 1) renders as the test's sequence of list openings, links and closings |
| Heading.ExampleLevel2 | src/heading.rs:46-91 | the two-level test outline gives exactly the expected string |
| Heading.ExampleLevel3 | src/heading.rs:93-153 | the three-level test outline gives exactly the expected string |
| Md2Html.Tag | src/md2html.rs:34-36 | heading level N names its element `hN`, for N from 1 to 6 |
| Md2Html.HeadingHtmlShape | src/md2html.rs:34-36 | the heading element is `<hN id="` followed by the anchor, `">`, the title and `</hN>`, each at a known position |
| Md2Html.HeadingHtmlRoundTrip | src/md2html.rs:34-36 | reading a heading element back gives its level, anchor and title, for any anchor without a double quote |
| Md2Html.JoinAppend | src/md2html.rs:32 | joining the collected texts with no separator: one more text extends the title by exactly that text |
| Md2Html.Headings.Add | src/md2html.rs:33 | registering a heading appends exactly one entry (level, returned anchor, title) to the outline and changes nothing else |
| Md2Html.Headings.Finish | src/md2html.rs:62 | the registry hands back its outline in the order the headings were added |
| Md2Html.Next | src/md2html.rs:16-58 | after any step the open heading's level depends only on heading starts and ends |
| Md2Html.Rewriter.constructor | src/md2html.rs:9-14 | the rewriter starts with no heading open, no texts, no pending language and an empty registry |
| Md2Html.Rewriter.Step | src/md2html.rs:16-58 | handling one event updates the fields and the registry, and returns the event to pass on, exactly as the reference step does |
| Md2Html.Parse | src/md2html.rs:6-63 | the events passed on and the outline returned are those of the reference run; there are no more events out than in, and the outline's levels are the levels of the heading ends, in order |
| Md2Html.NextFencedCode | src/md2html.rs:17-20 | a fenced code block's start records its language and is passed on unchanged |
| Md2Html.NextStartHeading | src/md2html.rs:21-25 | a heading's start is swallowed, records its level and empties the collected texts |
| Md2Html.NextEndHeading | src/md2html.rs:26-40 | a heading's end registers one heading titled by the joined texts, passes on one `<hN id="anchor">title</hN>` with the registry's anchor, and leaves no heading open and no texts |
| Md2Html.NextHeadingText | src/md2html.rs:41-44 | inside a heading a text is collected and swallowed, even when a code language is pending |
| Md2Html.NextCodeText | src/md2html.rs:45-56 | outside a heading with a language pending, a text becomes the highlighter's HTML on success or stays the same text on failure, and the language is cleared either way |
| Md2Html.NextOther | src/md2html.rs:57 | every other event leaves the state alone and is passed on unchanged |
| Md2Html.NextOutput | src/md2html.rs:16-58 | what one step passes on is the event read or a new HTML event, never a heading start or end; code block starts and other events always pass |
| Md2Html.RunLength | src/md2html.rs:16-61 | a run passes on at most one event per event read |
| Md2Html.RunNoHeadingEvents | src/md2html.rs:21-40 | no heading start or end reaches the renderer |
| Md2Html.RunImage | src/md2html.rs:16-58 | every event passed on is one of the events read or an HTML event |
| Md2Html.RunKept | src/md2html.rs:16-58 | code block starts and other events all reach the renderer, in their original order |
| Md2Html.RunPlain | src/md2html.rs:41-57 | with no heading open and no language pending, any run of texts, HTML and other events reaches the renderer exactly as read, and the state is unchanged |
| Md2Html.RunOutline | src/md2html.rs:26-40 | a run keeps the registry's earlier entries and adds exactly one per heading end, in document order, at that end's level |
| Md2Html.HeadingRest | src/md2html.rs:26-44 | from inside a heading, its inline content and end give the non-text events and then one element titled by all collected texts |
| Md2Html.HeadingBlock | src/md2html.rs:21-44 | a whole heading yields one outline entry and one element titled by its texts joined, preceded by its non-text inline events |
| Md2Html.CodeBlock | src/md2html.rs:17-56 | for a code block whose text arrives in two events, only the first is given to the highlighter and the second is passed on unchanged |

## Left out

- The Markdown parser and the HTML renderer are foreign library calls (src/md2html.rs:7, 60-61). The input is a given sequence of events, and the output is the sequence of events handed to the renderer.
- The event type records only what the rewriter looks at. A heading start keeps its level and drops its id, classes and attributes. Every event the rewriter does not distinguish is `Other`, with a name.
- The syntax highlighter is the parameter `highlight`, a fallible function from a language and a text. src/highlight_code.rs (its theme loading and its infallible signature) is not part of this model.
- The warning printed when highlighting fails is left out. It is output to standard error only.
- The registry's slug derivation and de-duplication are not in the files modelled. `Headings.Add` gets its anchor from the parameter `anchorFor`, a function of the outline so far, the level and the title. Anchor uniqueness and the slug rules are therefore not proved.
- The fatal assertion that a heading ends at the level it started is a precondition. It is `requires` on `Rewriter.Step` and the `Paired` precondition of `Parse` and `RunFrom`. The abort is not modelled.
- `Heading.level` is a 32-bit unsigned integer in the source and a `nat` in the model. The counter never exceeds the largest level seen, so no wrap-around can occur.
- src/inline_assets.rs (an external process and a writer thread) is not part of this model. Neither are src/cli.rs (argument definitions) and src/main.rs (file I/O and template filling).
- The ownership transfer of `finish`, which consumes the registry, is not modelled. After `Finish` the model's registry could still be used.
