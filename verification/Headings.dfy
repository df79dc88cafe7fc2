/** `_split_units` of app/rag/chunking.py: a text cut into units that carry the heading path they are
    under. What the line regexes tell apart is the `Line` type; the sentence splitter is a parameter. */
module Headings {
  import opened FixedWindows

  datatype Line = Blank | Heading(level: nat, title: Text) | Item(text: Text) | Prose(words: Text)

  datatype Unit = Unit(text: Text, path: seq<Text>, startsSection: bool, isHeading: bool)

  /** A heading that is open at some line: its level and its title. */
  datatype Mark = Mark(level: nat, title: Text)

  function Concat(texts: seq<Text>): Text {
    if texts == [] then [] else texts[0] + Concat(texts[1..])
  }

  /** The sentence splitter keeps the paragraph's words in order; no sentence is empty. */
  ghost predicate KeepsWords(split: seq<Text> -> seq<Text>, paragraph: seq<Text>) {
    Concat(split(paragraph)) == Concat(paragraph) && forall s <- split(paragraph) :: s != []
  }

  ghost predicate KeepsAllWords(split: seq<Text> -> seq<Text>) {
    forall paragraph :: KeepsWords(split, paragraph)
  }

  // ------------------------------------------------------------------ which headings are open

  /** Is line `i` a heading that no later heading of equal or smaller level follows? */
  ghost predicate Open(lines: seq<Line>, i: nat)
    requires i < |lines|
  {
    lines[i].Heading? && forall j :: i < j < |lines| && lines[j].Heading? ==> lines[j].level > lines[i].level
  }

  /** The open headings, in order. */
  ghost function OpenHeadings(lines: seq<Line>): seq<Mark> {
    if lines == [] then []
    else (if Open(lines, 0) then [Mark(lines[0].level, lines[0].title)] else []) + OpenHeadings(lines[1..])
  }

  /** What a new heading's loop leaves of the stack: its end of levels at or above `level` is popped. */
  function Popped(stack: seq<Mark>, level: nat): seq<Mark> {
    if stack != [] && stack[|stack| - 1].level >= level then Popped(stack[..|stack| - 1], level) else stack
  }

  ghost predicate IsOpenAt(lines: seq<Line>, m: Mark, i: nat)
    requires i < |lines|
  {
    Open(lines, i) && m == Mark(lines[i].level, lines[i].title)
  }

  /** A heading is open exactly if no later heading closes it. */
  lemma {:induction false} OpenHeadingsAreOpen(lines: seq<Line>, m: Mark)
    ensures m in OpenHeadings(lines) <==> exists i | 0 <= i < |lines| :: IsOpenAt(lines, m, i)
  {
    if lines != [] {
      var later := lines[1..];
      OpenHeadingsAreOpen(later, m);
      forall i | 0 < i < |lines|
        ensures IsOpenAt(lines, m, i) <==> IsOpenAt(later, m, i - 1)
      {
        OpenLater(lines, i);
      }
      if m in OpenHeadings(later) {
        var i :| 0 <= i < |later| && IsOpenAt(later, m, i);
        assert IsOpenAt(lines, m, i + 1);
      }
      assert m in OpenHeadings(lines) <==> IsOpenAt(lines, m, 0) || m in OpenHeadings(later);
    }
  }

  lemma OpenAbove(lines: seq<Line>)
    requires lines != [] && Open(lines, 0)
    ensures forall m <- OpenHeadings(lines[1..]) :: m.level > lines[0].level
  {
    forall m | m in OpenHeadings(lines[1..])
      ensures m.level > lines[0].level
    {
      OpenHeadingsAreOpen(lines[1..], m);
      var i :| 0 <= i < |lines[1..]| && IsOpenAt(lines[1..], m, i);
      assert lines[i + 1] == lines[1..][i];
    }
  }

  /** The levels of the open headings strictly increase. */
  lemma {:induction false} OpenIncreases(lines: seq<Line>, a: nat, b: nat)
    requires a < b < |OpenHeadings(lines)|
    ensures OpenHeadings(lines)[a].level < OpenHeadings(lines)[b].level
  {
    var rest := OpenHeadings(lines[1..]);
    if !Open(lines, 0) {
      OpenIncreases(lines[1..], a, b);
    } else if a > 0 {
      OpenIncreases(lines[1..], a - 1, b - 1);
    } else {
      OpenAbove(lines);
      assert rest[b - 1] in rest;
    }
  }

  lemma OpenLater(lines: seq<Line>, i: nat)
    requires 0 < i < |lines|
    ensures Open(lines, i) <==> Open(lines[1..], i - 1)
  {
    var later := lines[1..];
    assert forall j :: 0 < j < |lines| ==> lines[j] == later[j - 1];
    if Open(lines, i) {
      forall j | i - 1 < j < |later| && later[j].Heading?
        ensures later[j].level > later[i - 1].level
      {
        assert later[j] == lines[j + 1];
      }
    }
  }

  lemma OpenWithOneMore(lines: seq<Line>, l: Line)
    requires lines != []
    ensures Open(lines + [l], 0) <==> Open(lines, 0) && (l.Heading? ==> l.level > lines[0].level)
  {
    var all := lines + [l];
    assert all[|lines|] == l;
    assert forall j :: 0 <= j < |lines| ==> all[j] == lines[j];
  }

  /** Popping skips what lies below the new heading's level, and takes all that does not. */
  lemma {:induction false} PoppedCons(m: Mark, stack: seq<Mark>, level: nat)
    requires forall o <- stack :: o.level > m.level
    ensures Popped([m] + stack, level) == if m.level < level then [m] + Popped(stack, level) else []
  {
    if stack == [] {
      assert [m] + stack == [m];
      assert Popped([m][..0], level) == [];
    } else {
      var front := stack[..|stack| - 1];
      assert ([m] + stack)[..|stack|] == [m] + front;
      PoppedCons(m, front, level);
    }
  }

  /** A new heading closes exactly what the loop pops. */
  lemma {:induction false} HeadingClosesPopped(lines: seq<Line>, h: Line)
    requires h.Heading?
    ensures OpenHeadings(lines + [h]) == Popped(OpenHeadings(lines), h.level) + [Mark(h.level, h.title)]
  {
    var all := lines + [h];
    if lines == [] {
      assert all[1..] == [] && Open(all, 0);
    } else {
      assert all[1..] == lines[1..] + [h];
      HeadingClosesPopped(lines[1..], h);
      OpenWithOneMore(lines, h);
      assert OpenHeadings(lines) == (if Open(lines, 0) then [Mark(lines[0].level, lines[0].title)] else [])
             + OpenHeadings(lines[1..]);
      if Open(lines, 0) {
        var m := Mark(lines[0].level, lines[0].title);
        var rest, now := OpenHeadings(lines[1..]), [Mark(h.level, h.title)];
        hide Open;
        OpenAbove(lines);
        PoppedCons(m, rest, h.level);
        if h.level <= m.level {
          PoppedAll(rest, h.level);
          assert OpenHeadings(all) == [] + ([] + now);
        } else {
          assert OpenHeadings(all) == [m] + (Popped(rest, h.level) + now);
        }
      } else {
        assert OpenHeadings(all) == OpenHeadings(all[1..]) && OpenHeadings(lines) == OpenHeadings(lines[1..]);
      }
    }
  }

  lemma {:induction false} PoppedAll(stack: seq<Mark>, level: nat)
    requires forall o <- stack :: o.level >= level
    ensures Popped(stack, level) == []
  {
    if stack != [] {
      PoppedAll(stack[..|stack| - 1], level);
    }
  }

  lemma {:induction false} OtherLinesKeepOpen(lines: seq<Line>, l: Line)
    requires !l.Heading?
    ensures OpenHeadings(lines + [l]) == OpenHeadings(lines)
  {
    var all := lines + [l];
    if lines == [] {
      assert all[1..] == [];
    } else {
      assert all[1..] == lines[1..] + [l];
      OtherLinesKeepOpen(lines[1..], l);
      OpenWithOneMore(lines, l);
    }
  }

  // ------------------------------------------------------------------ the units of a text

  function Titles(stack: seq<Mark>): (path: seq<Text>)
    ensures |path| == |stack| && forall i :: 0 <= i < |stack| ==> path[i] == stack[i].title
  {
    seq(|stack|, i requires 0 <= i < |stack| => stack[i].title)
  }

  /** The heading path once the first `n` lines have been read. */
  ghost function PathAfter(lines: seq<Line>, n: nat): seq<Text>
    requires n <= |lines|
  {
    Titles(OpenHeadings(lines[..n]))
  }

  lemma PathKept(lines: seq<Line>, n: nat)
    requires n < |lines| && !lines[n].Heading?
    ensures PathAfter(lines, n + 1) == PathAfter(lines, n)
  {
    assert lines[..n + 1] == lines[..n] + [lines[n]];
    OtherLinesKeepOpen(lines[..n], lines[n]);
  }

  /** Where the paragraph that line `i` belongs to ends. */
  function ParagraphEnd(lines: seq<Line>, i: nat): (end: nat)
    requires i <= |lines|
    ensures i <= end <= |lines|
    ensures forall k :: i <= k < end ==> lines[k].Prose?
    ensures end < |lines| ==> !lines[end].Prose?
    decreases |lines| - i
  {
    if i < |lines| && lines[i].Prose? then ParagraphEnd(lines, i + 1) else i
  }

  lemma {:induction false} ParagraphEndIs(lines: seq<Line>, i: nat, end: nat)
    requires i <= end <= |lines| && (forall k :: i <= k < end ==> lines[k].Prose?)
    requires end < |lines| ==> !lines[end].Prose?
    ensures ParagraphEnd(lines, i) == end
    decreases end - i
  {
    if i < end {
      ParagraphEndIs(lines, i + 1, end);
    }
  }

  function ProseOf(lines: seq<Line>): (texts: seq<Text>)
    requires forall l <- lines :: l.Prose?
    ensures |texts| == |lines| && forall i :: 0 <= i < |lines| ==> texts[i] == lines[i].words
  {
    seq(|lines|, i requires 0 <= i < |lines| => lines[i].words)
  }

  function Sentences(pieces: seq<Text>, path: seq<Text>): (units: seq<Unit>)
    ensures |units| == |pieces| && forall i :: 0 <= i < |pieces| ==> units[i] == Unit(pieces[i], path, false, false)
  {
    seq(|pieces|, i requires 0 <= i < |pieces| => Unit(pieces[i], path, false, false))
  }

  /** The units of the lines from `i` on: a heading line is one that starts a section, an item line is
      one, a paragraph is its sentences, and each carries the path that holds at its line. */
  ghost function UnitsFrom(lines: seq<Line>, i: nat, split: seq<Text> -> seq<Text>): seq<Unit>
    requires i <= |lines|
    decreases |lines| - i
  {
    if i == |lines| then []
    else match lines[i]
      case Blank => UnitsFrom(lines, i + 1, split)
      case Heading(_, title) => [Unit(title, PathAfter(lines, i + 1), true, true)] + UnitsFrom(lines, i + 1, split)
      case Item(text) => [Unit(text, PathAfter(lines, i + 1), false, false)] + UnitsFrom(lines, i + 1, split)
      case Prose(_) =>
        var end := ParagraphEnd(lines, i);
        Sentences(split(ProseOf(lines[i..end])), PathAfter(lines, i + 1)) + UnitsFrom(lines, end, split)
  }

  /** The words of the lines; a structured chunker has the headings' in the prefix instead. */
  function LineText(line: Line, structured: bool): Text {
    match line
    case Blank => []
    case Heading(_, title) => if structured then [] else title
    case Item(text) => text
    case Prose(words) => words
  }

  function LineWords(lines: seq<Line>, structured: bool): Text {
    if lines == [] then [] else LineText(lines[0], structured) + LineWords(lines[1..], structured)
  }

  /** The units whose text goes into a chunk's body. */
  function Kept(units: seq<Unit>, structured: bool): seq<Unit> {
    if units == [] then []
    else (if structured && units[0].isHeading then [] else [units[0]]) + Kept(units[1..], structured)
  }

  lemma {:induction false} KeptAppend(a: seq<Unit>, b: seq<Unit>, structured: bool)
    ensures Kept(a + b, structured) == Kept(a, structured) + Kept(b, structured)
  {
    if a == [] {
      assert a + b == b;
    } else {
      KeptAppend(a[1..], b, structured);
      assert (a + b)[0] == a[0] && (a + b)[1..] == a[1..] + b;
      Associates(if structured && a[0].isHeading then [] else [a[0]], Kept(a[1..], structured), Kept(b, structured));
    }
  }

  lemma {:induction false} KeptWhole(units: seq<Unit>, structured: bool)
    requires forall u <- units :: !u.isHeading
    ensures Kept(units, structured) == units
  {
    if units != [] {
      KeptWhole(units[1..], structured);
    }
  }

  function UnitWords(units: seq<Unit>): Text {
    if units == [] then [] else units[0].text + UnitWords(units[1..])
  }

  lemma Associates<T>(a: seq<T>, b: seq<T>, c: seq<T>)
    ensures a + (b + c) == a + b + c
  {
  }

  lemma {:induction false} UnitWordsAppend(a: seq<Unit>, b: seq<Unit>)
    ensures UnitWords(a + b) == UnitWords(a) + UnitWords(b)
  {
    if a == [] {
      assert a + b == b;
    } else {
      UnitWordsAppend(a[1..], b);
      assert (a + b)[0] == a[0] && (a + b)[1..] == a[1..] + b;
      Associates(a[0].text, UnitWords(a[1..]), UnitWords(b));
    }
  }

  lemma {:induction false} SentenceWords(pieces: seq<Text>, path: seq<Text>)
    ensures UnitWords(Sentences(pieces, path)) == Concat(pieces)
  {
    if pieces != [] {
      SentenceWords(pieces[1..], path);
      assert Sentences(pieces, path)[1..] == Sentences(pieces[1..], path);
    }
  }

  lemma {:induction false} ProseWords(lines: seq<Line>, structured: bool)
    requires forall l <- lines :: l.Prose?
    ensures LineWords(lines, structured) == Concat(ProseOf(lines))
  {
    if lines != [] {
      ProseWords(lines[1..], structured);
      assert ProseOf(lines)[1..] == ProseOf(lines[1..]);
      assert ProseOf(lines)[0] == lines[0].words && lines[0].Prose?;
    }
  }

  lemma {:induction false} LineWordsAppend(a: seq<Line>, b: seq<Line>, structured: bool)
    ensures LineWords(a + b, structured) == LineWords(a, structured) + LineWords(b, structured)
  {
    hide LineText;
    if a == [] {
      assert a + b == b;
    } else {
      LineWordsAppend(a[1..], b, structured);
      assert (a + b)[0] == a[0] && (a + b)[1..] == a[1..] + b;
      Associates(LineText(a[0], structured), LineWords(a[1..], structured), LineWords(b, structured));
    }
  }

  /** Splitting into units keeps every word, in order. */
  lemma {:induction false} UnitsKeepWords(lines: seq<Line>, i: nat, split: seq<Text> -> seq<Text>, structured: bool)
    requires i <= |lines| && KeepsAllWords(split)
    ensures UnitWords(Kept(UnitsFrom(lines, i, split), structured)) == LineWords(lines[i..], structured)
    decreases |lines| - i
  {
    if i < |lines| {
      if lines[i].Prose? {
        var end := ParagraphEnd(lines, i);
        UnitsKeepWords(lines, end, split, structured);
        ParagraphKeepsWords(lines, i, end, split, structured);
      } else {
        UnitsKeepWords(lines, i + 1, split, structured);
        LineKeepsWords(lines, i, split, structured);
      }
    }
  }

  lemma LineKeepsWords(lines: seq<Line>, i: nat, split: seq<Text> -> seq<Text>, structured: bool)
    requires i < |lines| && !lines[i].Prose?
    ensures UnitWords(Kept(UnitsFrom(lines, i, split), structured))
            == LineText(lines[i], structured) + UnitWords(Kept(UnitsFrom(lines, i + 1, split), structured))
    ensures LineWords(lines[i..], structured) == LineText(lines[i], structured) + LineWords(lines[i + 1..], structured)
  {
    assert lines[i..][1..] == lines[i + 1..];
    var units, rest := UnitsFrom(lines, i, split), UnitsFrom(lines, i + 1, split);
    var later := UnitWords(Kept(rest, structured));
    if lines[i].Blank? {
      assert [] + later == later;
    } else {
      assert units[1..] == rest;
      if structured && units[0].isHeading {
        assert Kept(units, structured) == [] + Kept(rest, structured) == Kept(rest, structured);
        assert [] + later == later;
      } else {
        assert Kept(units, structured)[1..] == Kept(rest, structured);
        assert units[0].text == LineText(lines[i], structured);
      }
    }
  }

  lemma ParagraphKeepsWords(lines: seq<Line>, i: nat, end: nat, split: seq<Text> -> seq<Text>, structured: bool)
    requires i < |lines| && lines[i].Prose? && end == ParagraphEnd(lines, i) && KeepsAllWords(split)
    ensures UnitWords(Kept(UnitsFrom(lines, i, split), structured))
            == LineWords(lines[i..end], structured) + UnitWords(Kept(UnitsFrom(lines, end, split), structured))
    ensures LineWords(lines[i..], structured) == LineWords(lines[i..end], structured)
            + LineWords(lines[end..], structured)
  {
    assert lines[i..] == lines[i..end] + lines[end..];
    LineWordsAppend(lines[i..end], lines[end..], structured);
    var prose, path := ProseOf(lines[i..end]), PathAfter(lines, i + 1);
    assert KeepsWords(split, prose);
    var here, later := Sentences(split(prose), path), UnitsFrom(lines, end, split);
    assert UnitsFrom(lines, i, split) == here + later;
    ProseWords(lines[i..end], structured);
    SentenceWords(split(prose), path);
    hide UnitsFrom, Sentences, ProseOf, LineWords, Kept, UnitWords, Concat;
    KeptAppend(here, later, structured);
    KeptWhole(here, structured);
    UnitWordsAppend(here, Kept(later, structured));
  }

  /** Headings start sections and nothing else does; between headings the path does not change. */
  ghost predicate Sectioned(units: seq<Unit>) {
    && (forall u <- units :: u.startsSection == u.isHeading)
    && (forall k :: 0 < k < |units| ==> SamePathUnlessHeading(units, k))
  }

  ghost predicate SamePathUnlessHeading(units: seq<Unit>, k: nat)
    requires 0 < k < |units|
  {
    units[k].isHeading || units[k].path == units[k - 1].path
  }

  ghost predicate OpensWith(units: seq<Unit>, path: seq<Text>) {
    units != [] && !units[0].isHeading ==> units[0].path == path
  }

  lemma SectionedAppend(a: seq<Unit>, b: seq<Unit>, path: seq<Text>)
    requires Sectioned(a) && Sectioned(b) && (forall u <- a :: u.path == path) && OpensWith(b, path)
    ensures Sectioned(a + b)
  {
    var all := a + b;
    forall k | 0 < k < |all|
      ensures SamePathUnlessHeading(all, k)
    {
      if k < |a| {
        assert SamePathUnlessHeading(a, k);
      } else if k > |a| {
        assert SamePathUnlessHeading(b, k - |a|);
      }
    }
  }

  lemma {:induction false} PathKeptThroughParagraph(lines: seq<Line>, i: nat, end: nat)
    requires i <= end <= |lines| && forall k :: i <= k < end ==> lines[k].Prose?
    ensures PathAfter(lines, end) == PathAfter(lines, i)
    decreases end - i
  {
    if i < end {
      PathKept(lines, i);
      PathKeptThroughParagraph(lines, i + 1, end);
    }
  }

  lemma {:induction false} UnitsAreSectioned(lines: seq<Line>, i: nat, split: seq<Text> -> seq<Text>)
    requires i <= |lines|
    ensures Sectioned(UnitsFrom(lines, i, split)) && OpensWith(UnitsFrom(lines, i, split), PathAfter(lines, i))
    decreases |lines| - i
  {
    if i < |lines| {
      if !lines[i].Heading? {
        PathKept(lines, i);
      }
      if lines[i].Prose? {
        var end, path := ParagraphEnd(lines, i), PathAfter(lines, i + 1);
        var here := Sentences(split(ProseOf(lines[i..end])), path);
        PathKeptThroughParagraph(lines, i + 1, end);
        UnitsAreSectioned(lines, end, split);
        assert forall k :: 0 < k < |here| ==> SamePathUnlessHeading(here, k);
        SectionedAppend(here, UnitsFrom(lines, end, split), path);
      } else {
        UnitsAreSectioned(lines, i + 1, split);
        if !lines[i].Blank? {
          SectionedAppend([UnitsFrom(lines, i, split)[0]], UnitsFrom(lines, i + 1, split), PathAfter(lines, i + 1));
        }
      }
    }
  }

  /** The unit is line `n`, or a sentence of the paragraph that begins there, and carries the path of the
      headings open at that line. */
  ghost predicate ComesFrom(lines: seq<Line>, split: seq<Text> -> seq<Text>, u: Unit, n: nat)
    requires n < |lines|
  {
    && u.path == PathAfter(lines, n + 1)
    && match lines[n]
       case Blank => false
       case Heading(_, title) => u.isHeading && u.text == title
       case Item(text) => !u.isHeading && u.text == text
       case Prose(_) =>
         && !u.isHeading && (n > 0 ==> !lines[n - 1].Prose?)
         && u.text in split(ProseOf(lines[n..ParagraphEnd(lines, n)]))
  }

  /** Every unit carries the path at the line it came from. */
  lemma {:induction false} UnitsCarryTheirPath(lines: seq<Line>, i: nat, split: seq<Text> -> seq<Text>, u: Unit)
    returns (n: nat)
    requires i <= |lines| && u in UnitsFrom(lines, i, split)
    requires 0 < i < |lines| && lines[i].Prose? ==> !lines[i - 1].Prose?
    ensures i <= n < |lines| && ComesFrom(lines, split, u, n)
    decreases |lines| - i
  {
    n := i;
    var next := if lines[i].Prose? then ParagraphEnd(lines, i) else i + 1;
    if u in UnitsFrom(lines, next, split) {
      n := UnitsCarryTheirPath(lines, next, split, u);
    } else if lines[i].Prose? {
      var here := Sentences(split(ProseOf(lines[i..next])), PathAfter(lines, i + 1));
      assert u in here;
      var k :| 0 <= k < |here| && here[k] == u;
    }
  }

  // ------------------------------------------------------------------ the loop

  lemma PiecesHaveWords(pieces: seq<Text>)
    requires forall s <- pieces :: s != []
    ensures pieces != [] ==> Concat(pieces) != []
  {
    if pieces != [] {
      assert pieces[0] in pieces;
    }
  }

  /** `add(_sentences(paragraph))`: what is read so far, with its paragraph, is what the lines hold. */
  lemma ParagraphDone(lines: seq<Line>, from: nat, k: nat, split: seq<Text> -> seq<Text>)
    requires from <= k <= |lines| && (forall j :: from <= j < k ==> lines[j].Prose?)
    requires k < |lines| ==> !lines[k].Prose?
    requires KeepsAllWords(split)
    ensures UnitsFrom(lines, from, split)
            == Sentences(split(ProseOf(lines[from..k])), PathAfter(lines, k)) + UnitsFrom(lines, k, split)
  {
    if from < k {
      ParagraphEndIs(lines, from, k);
      PathKeptThroughParagraph(lines, from + 1, k);
    } else {
      var none := ProseOf(lines[from..k]);
      assert none == [] && KeepsWords(split, none);
      PiecesHaveWords(split(none));
      assert Sentences([], PathAfter(lines, k)) == [];
    }
  }

  /** What one line that ends a paragraph adds. */
  ghost function LineUnits(lines: seq<Line>, k: nat): seq<Unit>
    requires k < |lines| && !lines[k].Prose?
  {
    match lines[k]
    case Blank => []
    case Heading(_, title) => [Unit(title, PathAfter(lines, k + 1), true, true)]
    case Item(text) => [Unit(text, PathAfter(lines, k + 1), false, false)]
  }

  lemma StackAfter(lines: seq<Line>, k: nat)
    requires k < |lines|
    ensures OpenHeadings(lines[..k + 1]) ==
            if lines[k].Heading?
            then Popped(OpenHeadings(lines[..k]), lines[k].level) + [Mark(lines[k].level, lines[k].title)]
            else OpenHeadings(lines[..k])
  {
    assert lines[..k + 1] == lines[..k] + [lines[k]];
    if lines[k].Heading? {
      HeadingClosesPopped(lines[..k], lines[k]);
    } else {
      OtherLinesKeepOpen(lines[..k], lines[k]);
    }
  }

  /** Where the loop stands after `k` lines: the paragraph is the prose lines it has just read, the stack
      the headings open by now, and the units with what the lines after them hold are all of them. */
  ghost predicate Reading(lines: seq<Line>, split: seq<Text> -> seq<Text>, k: nat, units: seq<Unit>, stack: seq<Mark>,
                          paragraph: seq<Text>)
  {
    var from := k - |paragraph|;
    && 0 <= from <= k <= |lines| && (forall j :: from <= j < k ==> lines[j].Prose?)
    && paragraph == ProseOf(lines[from..k])
    && stack == OpenHeadings(lines[..k])
    && units + UnitsFrom(lines, from, split) == UnitsFrom(lines, 0, split)
  }

  lemma ReadNothing(lines: seq<Line>, split: seq<Text> -> seq<Text>)
    ensures Reading(lines, split, 0, [], [], [])
  {
    assert OpenHeadings([]) == [] && ProseOf([]) == [];
    var none: seq<Line> := [];
    hide UnitsFrom, OpenHeadings, ProseOf;
    assert lines[..0] == none && lines[0..0] == none;
    assert [] + UnitsFrom(lines, 0, split) == UnitsFrom(lines, 0, split);
  }

  lemma ReadProse(lines: seq<Line>, split: seq<Text> -> seq<Text>, k: nat, units: seq<Unit>, stack: seq<Mark>,
                  paragraph: seq<Text>)
    requires Reading(lines, split, k, units, stack, paragraph) && k < |lines| && lines[k].Prose?
    ensures Reading(lines, split, k + 1, units, stack, paragraph + [lines[k].words])
  {
    hide OpenHeadings, UnitsFrom;
    StackAfter(lines, k);
  }

  lemma EndParagraph(lines: seq<Line>, split: seq<Text> -> seq<Text>, k: nat, units: seq<Unit>, stack: seq<Mark>,
                     paragraph: seq<Text>)
    requires Reading(lines, split, k, units, stack, paragraph) && (k < |lines| ==> !lines[k].Prose?)
    requires KeepsAllWords(split)
    ensures Reading(lines, split, k, WithSentences(units, split, paragraph, stack), stack, [])
  {
    hide OpenHeadings, UnitsFrom, KeepsWords;
    ParagraphDone(lines, k - |paragraph|, k, split);
    assert units + (Sentences(split(paragraph), Titles(stack)) + UnitsFrom(lines, k, split))
           == units + Sentences(split(paragraph), Titles(stack)) + UnitsFrom(lines, k, split);
  }

  lemma ReadOther(lines: seq<Line>, split: seq<Text> -> seq<Text>, k: nat, units: seq<Unit>, stack: seq<Mark>,
                  after: seq<Mark>)
    requires Reading(lines, split, k, units, stack, []) && k < |lines| && !lines[k].Prose?
    requires after == if lines[k].Heading?
                      then Popped(stack, lines[k].level) + [Mark(lines[k].level, lines[k].title)]
                      else stack
    ensures Reading(lines, split, k + 1, WithLine(units, lines[k], after), after, [])
  {
    StackAfter(lines, k);
    assert UnitsFrom(lines, k, split) == LineUnits(lines, k) + UnitsFrom(lines, k + 1, split);
    hide OpenHeadings, UnitsFrom;
    assert units + (LineUnits(lines, k) + UnitsFrom(lines, k + 1, split))
           == units + LineUnits(lines, k) + UnitsFrom(lines, k + 1, split);
    assert units + [] == units;
  }

  lemma ReadAll(lines: seq<Line>, split: seq<Text> -> seq<Text>, units: seq<Unit>, stack: seq<Mark>)
    requires Reading(lines, split, |lines|, units, stack, [])
    ensures units == UnitsFrom(lines, 0, split)
  {
  }

  /** The stack's loop on a heading line. */
  method Push(stack: seq<Mark>, level: nat, title: Text) returns (after: seq<Mark>)
    ensures after == Popped(stack, level) + [Mark(level, title)]
  {
    after := stack;
    while after != [] && after[|after| - 1].level >= level
      invariant Popped(after, level) == Popped(stack, level)
    {
      after := after[..|after| - 1];
    }
    after := after + [Mark(level, title)];
  }

  /** `add(_sentences(paragraph))`. */
  function WithSentences(units: seq<Unit>, split: seq<Text> -> seq<Text>, paragraph: seq<Text>,
                         stack: seq<Mark>): seq<Unit> {
    units + Sentences(split(paragraph), Titles(stack))
  }

  /** `add` of a heading or an item. */
  function WithLine(units: seq<Unit>, line: Line, stack: seq<Mark>): seq<Unit>
    requires !line.Prose?
  {
    match line
    case Blank => units
    case Heading(_, title) => units + [Unit(title, Titles(stack), true, true)]
    case Item(text) => units + [Unit(text, Titles(stack), false, false)]
  }

  /** `_split_units`. */
  method SplitUnits(lines: seq<Line>, split: seq<Text> -> seq<Text>) returns (units: seq<Unit>)
    requires KeepsAllWords(split)
    ensures units == UnitsFrom(lines, 0, split)
  {
    units := [];
    var stack: seq<Mark> := [];
    var paragraph: seq<Text> := [];
    ReadNothing(lines, split);
    hide *;
    for k := 0 to |lines|
      invariant Reading(lines, split, k, units, stack, paragraph)
    {
      var line := lines[k];
      if line.Prose? {
        ReadProse(lines, split, k, units, stack, paragraph);
        paragraph := paragraph + [line.words];
      } else {
        EndParagraph(lines, split, k, units, stack, paragraph);
        units := WithSentences(units, split, paragraph, stack);
        paragraph := [];
        ghost var was := stack;
        if line.Heading? {
          stack := Push(stack, line.level, line.title);
        }
        ReadOther(lines, split, k, units, was, stack);
        units := WithLine(units, line, stack);
      }
    }
    EndParagraph(lines, split, |lines|, units, stack, paragraph);
    units := WithSentences(units, split, paragraph, stack);
    ReadAll(lines, split, units, stack);
  }
}
