/**
 * The table-of-contents builder: a flat, ordered outline of headings is turned
 * into nested `<ul>`/`<li>` HTML by a single pass that keeps one counter,
 * the level of the innermost open list.
 *
 * The imperative builder `ToHtmlToc` is proved equal to the rendering of a
 * reference definition on fragments (`Toc`), and the properties of the output
 * (balanced lists, every item at the nesting depth of its level, one item per
 * heading in order) are proved about that reference definition.
 */
module Heading {

  /** One entry of the outline: heading level, link target and label. */
  datatype Heading = Heading(level: nat, anchor: string, title: string)

  /** The pieces the builder appends, before they are spelled out as text. */
  datatype Fragment =
    | Open                   // a nested list is opened
    | Close                  // the open item and its list are closed
    | EndItem                // the open item is closed
    | Item(heading: Heading) // a new item holding a link to `heading`

  const OpenList: string := "\n<ul>\n"
  const CloseList: string := "</li>\n</ul>\n"
  const CloseItem: string := "</li>\n"

  /** The start of a list item; the title is emitted as given, without escaping. */
  function Link(h: Heading): string {
    "<li><a href=\"#" + h.anchor + "\">" + h.title + "</a>"
  }

  function RenderFragment(f: Fragment): string {
    match f
    case Open => OpenList
    case Close => CloseList
    case EndItem => CloseItem
    case Item(h) => Link(h)
  }

  function Render(fs: seq<Fragment>): string {
    if fs == [] then "" else RenderFragment(fs[0]) + Render(fs[1..])
  }

  function Repeat(f: Fragment, n: nat): seq<Fragment> {
    if n == 0 then [] else [f] + Repeat(f, n - 1)
  }

  /** What is emitted before the item of a heading at `level` when the innermost open list is at `last`. */
  function Transition(last: nat, level: nat): seq<Fragment> {
    if level > last then Repeat(Open, level - last) else Repeat(Close, last - level) + [EndItem]
  }

  /** The fragments emitted for `hs` when the innermost open list is at `last`, including the final closing. */
  function TocFrom(last: nat, hs: seq<Heading>): seq<Fragment>
    decreases |hs|
  {
    if hs == [] then Repeat(Close, last)
    else Transition(last, hs[0].level) + [Item(hs[0])] + TocFrom(hs[0].level, hs[1..])
  }

  /** The reference definition of the table of contents of an outline. */
  function Toc(hs: seq<Heading>): seq<Fragment> {
    TocFrom(0, hs)
  }

  /**
   * The builder as the source writes it: a loop over the headings, each step
   * done by `AppendHeading`, then the loop `CloseLists` that closes what is
   * still open.
   */
  method ToHtmlToc(headings: seq<Heading>) returns (result: string)
    ensures result == Render(Toc(headings))
    ensures headings == [] ==> result == ""
  {
    ghost var whole := Render(Toc(headings));
    result := "";
    var lastLevel: nat := 0;
    assert result + Render(TocFrom(lastLevel, headings[0..])) == whole;
    for i := 0 to |headings|
      invariant result + Render(TocFrom(lastLevel, headings[i..])) == whole
    {
      ghost var before, startLevel := result, lastLevel;
      result, lastLevel := AppendHeading(result, lastLevel, headings[i]);
      TocFromStep(before, startLevel, headings, i, whole);
    }
    assert headings[|headings|..] == [];
    result, lastLevel := CloseLists(result, lastLevel);
  }

  /** The builder's last loop: close every list still open, with the item that holds it. */
  method CloseLists(result: string, lastLevel: nat) returns (result': string, level: nat)
    ensures result' == result + Render(Repeat(Close, lastLevel))
    ensures level == 0
  {
    result' := result;
    level := lastLevel;
    ghost var target := result + Render(Repeat(Close, lastLevel));
    while level > 0
      invariant result' + Render(Repeat(Close, level)) == target
    {
      EmitFirst(result', Close, level, target);
      result' := result' + CloseList;
      level := level - 1;
    }
    EmitNone(result', Close, target);
  }

  /**
   * One turn of the builder's loop: step `lastLevel` up to the heading's level,
   * opening a list per level, or down to it, closing a list (and the item that
   * holds it) per level and then the previous item; then append the link.
   */
  method AppendHeading(result: string, lastLevel: nat, heading: Heading)
    returns (result': string, lastLevel': nat)
    ensures result' == result + Render(Transition(lastLevel, heading.level)) + Link(heading)
    ensures lastLevel' == heading.level
  {
    ghost var target := result + Render(Transition(lastLevel, heading.level));
    result', lastLevel' := result, lastLevel;
    if heading.level > lastLevel' {
      while heading.level > lastLevel'
        invariant lastLevel' <= heading.level
        invariant result' + Render(Repeat(Open, heading.level - lastLevel')) == target
      {
        EmitFirst(result', Open, heading.level - lastLevel', target);
        result' := result' + OpenList;
        lastLevel' := lastLevel' + 1;
      }
      EmitNone(result', Open, target);
    } else {
      while heading.level < lastLevel'
        invariant heading.level <= lastLevel'
        invariant result' + Render(Repeat(Close, lastLevel' - heading.level) + [EndItem]) == target
      {
        EmitFirstClose(result', lastLevel' - heading.level, target);
        result' := result' + CloseList;
        lastLevel' := lastLevel' - 1;
      }
      EmitLastClose(result', target);
      result' := result' + CloseItem;
    }
    result' := result' + Link(heading);
  }

  // ---------------------------------------------------------------------------
  // Facts about sequences, proved once for any element type

  lemma Assoc<T>(a: seq<T>, b: seq<T>, c: seq<T>)
    ensures (a + b) + c == a + (b + c)
  {
  }

  lemma AppendEmpty<T>(a: seq<T>)
    ensures a + [] == a && [] + a == a
  {
  }

  lemma ConsParts<T>(x: T, r: seq<T>)
    ensures ([x] + r)[0] == x && ([x] + r)[1..] == r && [x] + r != []
  {
  }

  lemma AppendParts<T>(a: seq<T>, b: seq<T>)
    requires a != []
    ensures (a + b)[0] == a[0] && (a + b)[1..] == a[1..] + b && a + b != []
  {
  }

  lemma Suffix<T>(s: seq<T>, i: nat)
    requires i < |s|
    ensures s[i..] != [] && s[i..][0] == s[i] && s[i..][1..] == s[i + 1..]
  {
  }

  // ---------------------------------------------------------------------------
  // Facts about rendering

  lemma RenderCons(f: Fragment, r: seq<Fragment>)
    ensures Render([f] + r) == RenderFragment(f) + Render(r)
  {
    ConsParts(f, r);
  }

  // Each lemma below takes one step of a loop of the builder: `whole` is the
  // text the loop is to produce, `acc` what it has appended so far.

  lemma EmitFirst(acc: string, f: Fragment, n: nat, whole: string)
    requires n > 0
    requires acc + Render(Repeat(f, n)) == whole
    ensures (acc + RenderFragment(f)) + Render(Repeat(f, n - 1)) == whole
  {
    RenderCons(f, Repeat(f, n - 1));
    Assoc(acc, RenderFragment(f), Render(Repeat(f, n - 1)));
  }

  lemma EmitNone(acc: string, f: Fragment, whole: string)
    requires acc + Render(Repeat(f, 0)) == whole
    ensures acc == whole
  {
    AppendEmpty(acc);
  }

  lemma EmitFirstClose(acc: string, n: nat, whole: string)
    requires n > 0
    requires acc + Render(Repeat(Close, n) + [EndItem]) == whole
    ensures (acc + CloseList) + Render(Repeat(Close, n - 1) + [EndItem]) == whole
  {
    var rest := Repeat(Close, n - 1) + [EndItem];
    Assoc([Close], Repeat(Close, n - 1), [EndItem]);
    RenderCons(Close, rest);
    Assoc(acc, CloseList, Render(rest));
  }

  lemma EmitLastClose(acc: string, whole: string)
    requires acc + Render(Repeat(Close, 0) + [EndItem]) == whole
    ensures acc + CloseItem == whole
  {
    AppendEmpty([EndItem]);
    RenderCons(EndItem, []);
    AppendEmpty(CloseItem);
  }

  /**
   * The text emitted for heading `i` of `hs`, followed by the text for the
   * headings after it, is the text for the headings from `i` on.
   */
  lemma TocFromStep(prefix: string, last: nat, hs: seq<Heading>, i: nat, whole: string)
    requires i < |hs|
    requires prefix + Render(TocFrom(last, hs[i..])) == whole
    ensures (prefix + Render(Transition(last, hs[i].level)) + Link(hs[i])) + Render(TocFrom(hs[i].level, hs[i + 1..])) == whole
  {
    Suffix(hs, i);
    TocFromFirst(prefix, last, hs[i..]);
  }

  /** The text emitted for the first heading of `hs`, followed by the text for the rest. */
  lemma TocFromFirst(prefix: string, last: nat, hs: seq<Heading>)
    requires hs != []
    ensures prefix + Render(TocFrom(last, hs))
            == (prefix + Render(Transition(last, hs[0].level)) + Link(hs[0])) + Render(TocFrom(hs[0].level, hs[1..]))
  {
    var t, item, rest := Transition(last, hs[0].level), [Item(hs[0])], TocFrom(hs[0].level, hs[1..]);
    RenderAppend(t + item, rest);
    RenderAppend(t, item);
    RenderCons(Item(hs[0]), []);
    AppendEmpty(Link(hs[0]));
    Assoc(prefix, Render(t) + Link(hs[0]), Render(rest));
    Assoc(prefix, Render(t), Link(hs[0]));
  }

  /** Rendering distributes over concatenation. */
  lemma {:induction false} RenderAppend(a: seq<Fragment>, b: seq<Fragment>)
    ensures Render(a + b) == Render(a) + Render(b)
    decreases |a|
  {
    if a == [] {
      AppendEmpty(b);
      AppendEmpty(Render(b));
    } else {
      AppendParts(a, b);
      RenderAppend(a[1..], b);
      Assoc(RenderFragment(a[0]), Render(a[1..]), Render(b));
    }
  }

  /** The table of contents is empty exactly when the outline is. */
  lemma TocEmpty(hs: seq<Heading>)
    ensures Render(Toc(hs)) == "" <==> hs == []
  {
    if hs != [] {
      TocFromFirst("", 0, hs);
      var link := Link(hs[0]);
      assert |link| > 0;
      assert |Render(Toc(hs))| >= |link|;
    }
  }

  // ---------------------------------------------------------------------------
  // Counting fragments

  function Count(f: Fragment, fs: seq<Fragment>): nat {
    if fs == [] then 0 else (if fs[0] == f then 1 else 0) + Count(f, fs[1..])
  }

  lemma {:induction false} CountAppend(f: Fragment, a: seq<Fragment>, b: seq<Fragment>)
    ensures Count(f, a + b) == Count(f, a) + Count(f, b)
    decreases |a|
  {
    if a == [] {
      AppendEmpty(b);
    } else {
      AppendParts(a, b);
      CountAppend(f, a[1..], b);
    }
  }

  lemma {:induction false} CountRepeat(f: Fragment, g: Fragment, n: nat)
    ensures Count(f, Repeat(g, n)) == if f == g then n else 0
    ensures |Repeat(g, n)| == n
  {
    if n > 0 {
      ConsParts(g, Repeat(g, n - 1));
      CountRepeat(f, g, n - 1);
    }
  }

  lemma CountOne(f: Fragment, g: Fragment)
    ensures Count(f, [g]) == if f == g then 1 else 0
  {
    ConsParts(g, []);
  }

  /**
   * A rise by k emits exactly k list openings and nothing else; a fall by
   * k >= 0 emits exactly k list closings followed by one item closing.
   */
  lemma TransitionShape(last: nat, level: nat)
    ensures level > last ==>
      |Transition(last, level)| == level - last &&
      Count(Open, Transition(last, level)) == level - last
    ensures level <= last ==>
      |Transition(last, level)| == last - level + 1 &&
      Count(Close, Transition(last, level)) == last - level &&
      Transition(last, level)[last - level] == EndItem
  {
    if level > last {
      CountRepeat(Open, Open, level - last);
    } else {
      CountRepeat(Close, Close, last - level);
      CountAppend(Close, Repeat(Close, last - level), [EndItem]);
      CountOne(Close, EndItem);
    }
  }

  // ---------------------------------------------------------------------------
  // Nesting

  /**
   * Walking `fs` from nesting depth `d`: a list is never closed when none is
   * open, every item sits at the depth of its heading's level, and the walk
   * ends with every list closed.
   */
  predicate WellNested(fs: seq<Fragment>, d: nat) {
    if fs == [] then d == 0
    else match fs[0]
      case Open => WellNested(fs[1..], d + 1)
      case Close => d > 0 && WellNested(fs[1..], d - 1)
      case EndItem => WellNested(fs[1..], d)
      case Item(h) => h.level == d && WellNested(fs[1..], d)
  }

  lemma {:induction false} WellNestedOpens(n: nat, d: nat, rest: seq<Fragment>)
    requires WellNested(rest, d + n)
    ensures WellNested(Repeat(Open, n) + rest, d)
  {
    if n > 0 {
      var r := Repeat(Open, n - 1) + rest;
      WellNestedOpens(n - 1, d + 1, rest);
      ConsParts(Open, r);
      assert WellNested([Open] + r, d);
      Assoc([Open], Repeat(Open, n - 1), rest);
    } else {
      AppendEmpty(rest);
    }
  }

  lemma {:induction false} WellNestedCloses(n: nat, d: nat, rest: seq<Fragment>)
    requires n <= d
    requires WellNested(rest, d - n)
    ensures WellNested(Repeat(Close, n) + rest, d)
  {
    if n > 0 {
      var r := Repeat(Close, n - 1) + rest;
      WellNestedCloses(n - 1, d - 1, rest);
      ConsParts(Close, r);
      assert WellNested([Close] + r, d);
      Assoc([Close], Repeat(Close, n - 1), rest);
    } else {
      AppendEmpty(rest);
    }
  }

  /** From any starting depth, the emitted fragments are well nested: each item's depth is its level. */
  lemma {:induction false} TocFromWellNested(last: nat, hs: seq<Heading>)
    ensures WellNested(TocFrom(last, hs), last)
    decreases |hs|
  {
    if hs == [] {
      WellNestedCloses(last, last, []);
      AppendEmpty(Repeat(Close, last));
    } else {
      var h, tail := hs[0], TocFrom(hs[0].level, hs[1..]);
      var rest := [Item(h)] + tail;
      TocFromWellNested(h.level, hs[1..]);
      ConsParts(Item(h), tail);
      Assoc(Transition(last, h.level), [Item(h)], tail);
      if h.level > last {
        WellNestedOpens(h.level - last, last, rest);
      } else {
        ConsParts(EndItem, rest);
        Assoc(Repeat(Close, last - h.level), [EndItem], rest);
        WellNestedCloses(last - h.level, last, [EndItem] + rest);
      }
    }
  }

  /** A well-nested walk from depth `d` closes `d` more lists than it opens. */
  lemma {:induction false} WellNestedBalance(fs: seq<Fragment>, d: nat)
    requires WellNested(fs, d)
    ensures Count(Open, fs) + d == Count(Close, fs)
    decreases |fs|
  {
    if fs != [] {
      match fs[0]
      case Open => WellNestedBalance(fs[1..], d + 1);
      case Close => WellNestedBalance(fs[1..], d - 1);
      case EndItem => WellNestedBalance(fs[1..], d);
      case Item(_) => WellNestedBalance(fs[1..], d);
    }
  }

  /** For every outline, the table of contents opens as many lists as it closes. */
  lemma TocBalanced(hs: seq<Heading>)
    ensures WellNested(Toc(hs), 0)
    ensures Count(Open, Toc(hs)) == Count(Close, Toc(hs))
  {
    TocFromWellNested(0, hs);
    WellNestedBalance(Toc(hs), 0);
  }

  // ---------------------------------------------------------------------------
  // Items

  /** The headings linked by the items of `fs`, in order. */
  function Items(fs: seq<Fragment>): seq<Heading> {
    if fs == [] then []
    else (if fs[0].Item? then [fs[0].heading] else []) + Items(fs[1..])
  }

  lemma {:induction false} ItemsAppend(a: seq<Fragment>, b: seq<Fragment>)
    ensures Items(a + b) == Items(a) + Items(b)
    decreases |a|
  {
    if a == [] {
      AppendEmpty(b);
      AppendEmpty(Items(b));
    } else {
      AppendParts(a, b);
      ItemsAppend(a[1..], b);
      Assoc(if a[0].Item? then [a[0].heading] else [], Items(a[1..]), Items(b));
    }
  }

  lemma {:induction false} ItemsRepeat(f: Fragment, n: nat)
    requires !f.Item?
    ensures Items(Repeat(f, n)) == []
  {
    if n > 0 {
      ConsParts(f, Repeat(f, n - 1));
      ItemsRepeat(f, n - 1);
      AppendEmpty(Items(Repeat(f, n - 1)));
    }
  }

  lemma ItemsOne(f: Fragment)
    ensures Items([f]) == if f.Item? then [f.heading] else []
  {
    ConsParts(f, []);
    AppendEmpty(if f.Item? then [f.heading] else []);
  }

  /** Each heading contributes exactly one item, and the items follow the outline's order. */
  lemma TransitionItems(last: nat, level: nat)
    ensures Items(Transition(last, level)) == []
  {
    if level > last {
      ItemsRepeat(Open, level - last);
    } else {
      ItemsRepeat(Close, last - level);
      ItemsAppend(Repeat(Close, last - level), [EndItem]);
      ItemsOne(EndItem);
    }
  }

  lemma {:induction false} TocFromItems(last: nat, hs: seq<Heading>)
    ensures Items(TocFrom(last, hs)) == hs
    decreases |hs|
  {
    if hs == [] {
      ItemsRepeat(Close, last);
    } else {
      var h := hs[0];
      var t, tail := Transition(last, h.level), TocFrom(h.level, hs[1..]);
      ItemsAppend(t + [Item(h)], tail);
      ItemsAppend(t, [Item(h)]);
      ItemsOne(Item(h));
      TransitionItems(last, h.level);
      TocFromItems(h.level, hs[1..]);
      AppendEmpty([h]);
      ConsParts(h, hs[1..]);
      calc {
        Items(TocFrom(last, hs));
        Items(t + [Item(h)]) + Items(tail);
        (Items(t) + [h]) + hs[1..];
        hs;
      }
    }
  }

  lemma TocItems(hs: seq<Heading>)
    ensures Items(Toc(hs)) == hs
  {
    TocFromItems(0, hs);
  }

  // ---------------------------------------------------------------------------
  // Item closings

  /** The levels skipped by the headings of `hs`, each heading compared with the one before it. */
  function Skipped(last: nat, hs: seq<Heading>): nat
    decreases |hs|
  {
    if hs == [] then 0
    else (if hs[0].level > last + 1 then hs[0].level - last - 1 else 0) + Skipped(hs[0].level, hs[1..])
  }

  /** No heading is more than one level deeper than the one before it. */
  predicate NoSkips(last: nat, hs: seq<Heading>)
    decreases |hs|
  {
    hs == [] || (hs[0].level <= last + 1 && NoSkips(hs[0].level, hs[1..]))
  }

  lemma {:induction false} NoSkipsSkipped(last: nat, hs: seq<Heading>)
    ensures NoSkips(last, hs) <==> Skipped(last, hs) == 0
    decreases |hs|
  {
    if hs != [] {
      NoSkipsSkipped(hs[0].level, hs[1..]);
    }
  }

  /** How many times `</li>\n` is emitted, alone or as the start of `</li>\n</ul>\n`. */
  function Closings(fs: seq<Fragment>): nat {
    Count(EndItem, fs) + Count(Close, fs)
  }

  /**
   * The item closings: one per heading, one per level the walk starts at,
   * and one more per skipped level, since each list opened for a skipped
   * level is closed together with an item that was never opened.
   */
  lemma {:induction false} TocFromClosings(last: nat, hs: seq<Heading>)
    ensures Closings(TocFrom(last, hs)) == |hs| + last + Skipped(last, hs)
    decreases |hs|
  {
    if hs == [] {
      CountRepeat(EndItem, Close, last);
      CountRepeat(Close, Close, last);
    } else {
      var h := hs[0];
      var t := Transition(last, h.level);
      var tail := TocFrom(h.level, hs[1..]);
      TocFromClosings(h.level, hs[1..]);
      CountAppend(EndItem, t + [Item(h)], tail);
      CountAppend(Close, t + [Item(h)], tail);
      CountAppend(EndItem, t, [Item(h)]);
      CountAppend(Close, t, [Item(h)]);
      CountOne(EndItem, Item(h));
      CountOne(Close, Item(h));
      if h.level > last {
        CountRepeat(EndItem, Open, h.level - last);
        CountRepeat(Close, Open, h.level - last);
      } else {
        CountAppend(EndItem, Repeat(Close, last - h.level), [EndItem]);
        CountAppend(Close, Repeat(Close, last - h.level), [EndItem]);
        CountRepeat(EndItem, Close, last - h.level);
        CountRepeat(Close, Close, last - h.level);
        CountOne(EndItem, EndItem);
        CountOne(Close, EndItem);
      }
    }
  }

  /**
   * Every item is closed exactly once if and only if no heading skips a
   * level; otherwise each skipped level adds one `</li>` with no `<li>`.
   */
  lemma TocItemsClosed(hs: seq<Heading>)
    ensures Closings(Toc(hs)) == |Items(Toc(hs))| + Skipped(0, hs)
    ensures Closings(Toc(hs)) == |Items(Toc(hs))| <==> NoSkips(0, hs)
  {
    TocFromClosings(0, hs);
    TocItems(hs);
    NoSkipsSkipped(0, hs);
  }

  /**
   * A jump from level 1 to level 3 opens two lists with a single item between
   * them, yet both are closed with `</li>\n</ul>\n`: the output has one item
   * closing more than it has items.
   */
  lemma JumpClosesExtraItem(a: Heading, b: Heading)
    requires a.level == 1 && b.level == 3
    ensures |Items(Toc([a, b]))| == 2 && Closings(Toc([a, b])) == 3
  {
    TocItems([a, b]);
    TocItemsClosed([a, b]);
    assert [a, b][1..] == [b] && [b][1..] == [];
    assert Skipped(1, [b]) == 1;
    assert Skipped(0, [a, b]) == 1;
  }

  // ---------------------------------------------------------------------------
  // The source's two unit tests

  lemma RenderTocFromCons(last: nat, h: Heading, rest: seq<Heading>)
    ensures Render(TocFrom(last, [h] + rest))
            == Render(Transition(last, h.level)) + (Link(h) + Render(TocFrom(h.level, rest)))
  {
    ConsParts(h, rest);
    TocFromFirst("", last, [h] + rest);
    AppendEmpty(Render(Transition(last, h.level)));
    Assoc(Render(Transition(last, h.level)), Link(h), Render(TocFrom(h.level, rest)));
  }

  lemma RenderRise(last: nat)
    ensures Render(Transition(last, last + 1)) == OpenList
  {
    RenderCons(Open, []);
    AppendEmpty(OpenList);
  }

  lemma RenderSame(last: nat)
    ensures Render(Transition(last, last)) == CloseItem
  {
    AppendEmpty([EndItem]);
    RenderCons(EndItem, []);
    AppendEmpty(CloseItem);
  }

  lemma RenderFall(level: nat, k: nat)
    requires 1 <= k <= 2
    ensures Render(Transition(level + k, level))
            == if k == 1 then CloseList + CloseItem else CloseList + (CloseList + CloseItem)
  {
    RenderAppend(Repeat(Close, k), [EndItem]);
    RenderSame(level);
    RenderCons(Close, Repeat(Close, k - 1));
    if k == 2 {
      RenderCons(Close, []);
    }
    AppendEmpty(CloseList);
  }

  lemma RenderEnd()
    ensures Render(TocFrom(1, [])) == CloseList
  {
    RenderCons(Close, []);
    AppendEmpty(CloseList);
  }

  /**
   * The first test's outline has the levels 1, 1, 2, 2, 1: one list holding
   * three items, the second of which holds a list of two.
   */
  lemma Level2Shape(coffee: Heading, tea: Heading, black: Heading, green: Heading, milk: Heading)
    requires coffee.level == 1 && tea.level == 1 && milk.level == 1
    requires black.level == 2 && green.level == 2
    ensures Render(Toc([coffee, tea, black, green, milk]))
      == OpenList + (Link(coffee) + (CloseItem + (Link(tea) + (OpenList + (Link(black)
       + (CloseItem + (Link(green) + ((CloseList + CloseItem) + (Link(milk) + CloseList)))))))))
  {
    assert [coffee, tea, black, green, milk] == [coffee] + ([tea] + ([black] + ([green] + ([milk] + []))));
    RenderTocFromCons(0, coffee, [tea] + ([black] + ([green] + ([milk] + []))));
    RenderTocFromCons(1, tea, [black] + ([green] + ([milk] + [])));
    RenderTocFromCons(1, black, [green] + ([milk] + []));
    RenderTocFromCons(2, green, [milk] + []);
    RenderTocFromCons(2, milk, []);
    RenderRise(0);
    RenderSame(1);
    RenderRise(1);
    RenderSame(2);
    RenderFall(1, 1);
    RenderEnd();
  }

  /**
   * The second test's outline has the levels 1, 1, 2, 2, 3, 3, 1: the list of
   * two under the second item now holds a list of two under its second item.
   */
  lemma Level3Shape(coffee: Heading, tea: Heading, black: Heading, green: Heading,
                    china: Heading, africa: Heading, milk: Heading)
    requires coffee.level == 1 && tea.level == 1 && milk.level == 1
    requires black.level == 2 && green.level == 2
    requires china.level == 3 && africa.level == 3
    ensures Render(Toc([coffee, tea, black, green, china, africa, milk]))
      == OpenList + (Link(coffee) + (CloseItem + (Link(tea) + (OpenList + (Link(black)
       + (CloseItem + (Link(green) + (OpenList + (Link(china) + (CloseItem + (Link(africa)
       + ((CloseList + (CloseList + CloseItem)) + (Link(milk) + CloseList)))))))))))))
  {
    assert [coffee, tea, black, green, china, africa, milk]
      == [coffee] + ([tea] + ([black] + ([green] + ([china] + ([africa] + ([milk] + []))))));
    RenderTocFromCons(0, coffee, [tea] + ([black] + ([green] + ([china] + ([africa] + ([milk] + []))))));
    RenderTocFromCons(1, tea, [black] + ([green] + ([china] + ([africa] + ([milk] + [])))));
    RenderTocFromCons(1, black, [green] + ([china] + ([africa] + ([milk] + []))));
    RenderTocFromCons(2, green, [china] + ([africa] + ([milk] + [])));
    RenderTocFromCons(2, china, [africa] + ([milk] + []));
    RenderTocFromCons(3, africa, [milk] + []);
    RenderTocFromCons(3, milk, []);
    RenderRise(0);
    RenderSame(1);
    RenderRise(1);
    RenderSame(2);
    RenderRise(2);
    RenderSame(3);
    RenderFall(1, 2);
    RenderEnd();
  }

  const Level2Outline: seq<Heading> :=
    [Heading(1, "coffee", "Coffee"), Heading(1, "tea", "Tea"),
     Heading(2, "black_tea", "Black tea"), Heading(2, "green_tea", "Green tea"),
     Heading(1, "milk", "Milk")]

  /** The expected string of the first unit test, a line of it per row, each link in its format's pieces. */
  lemma ExampleLevel2()
    ensures Render(Toc(Level2Outline))
      == "\n<ul>\n"
       + ("<li><a href=\"#" + "coffee" + "\">" + "Coffee" + "</a>" + ("</li>\n"
       + ("<li><a href=\"#" + "tea" + "\">" + "Tea" + "</a>" + ("\n<ul>\n"
       + ("<li><a href=\"#" + "black_tea" + "\">" + "Black tea" + "</a>" + ("</li>\n"
       + ("<li><a href=\"#" + "green_tea" + "\">" + "Green tea" + "</a>" + (("</li>\n</ul>\n" + "</li>\n")
       + ("<li><a href=\"#" + "milk" + "\">" + "Milk" + "</a>" + "</li>\n</ul>\n")))))))))
  {
    var hs := Level2Outline;
    Level2Shape(hs[0], hs[1], hs[2], hs[3], hs[4]);
    assert hs == [hs[0], hs[1], hs[2], hs[3], hs[4]];
  }

  const Level3Outline: seq<Heading> :=
    [Heading(1, "coffee", "Coffee"), Heading(1, "tea", "Tea"),
     Heading(2, "black_tea", "Black tea"), Heading(2, "green_tea", "Green tea"),
     Heading(3, "china", "China"), Heading(3, "africa", "Africa"),
     Heading(1, "milk", "Milk")]

  /** The expected string of the second unit test, a line of it per row, each link in its format's pieces. */
  lemma ExampleLevel3()
    ensures Render(Toc(Level3Outline))
      == "\n<ul>\n"
       + ("<li><a href=\"#" + "coffee" + "\">" + "Coffee" + "</a>" + ("</li>\n"
       + ("<li><a href=\"#" + "tea" + "\">" + "Tea" + "</a>" + ("\n<ul>\n"
       + ("<li><a href=\"#" + "black_tea" + "\">" + "Black tea" + "</a>" + ("</li>\n"
       + ("<li><a href=\"#" + "green_tea" + "\">" + "Green tea" + "</a>" + ("\n<ul>\n"
       + ("<li><a href=\"#" + "china" + "\">" + "China" + "</a>" + ("</li>\n"
       + ("<li><a href=\"#" + "africa" + "\">" + "Africa" + "</a>"
       + (("</li>\n</ul>\n" + ("</li>\n</ul>\n" + "</li>\n"))
       + ("<li><a href=\"#" + "milk" + "\">" + "Milk" + "</a>" + "</li>\n</ul>\n")))))))))))))
  {
    var hs := Level3Outline;
    Level3Shape(hs[0], hs[1], hs[2], hs[3], hs[4], hs[5], hs[6]);
    assert hs == [hs[0], hs[1], hs[2], hs[3], hs[4], hs[5], hs[6]];
  }
}
