/** `SentenceChunker._pack` and `_overlap` of app/rag/chunking.py. A finished chunk is traced as the
    interval of the input it covers, so that what it carries over and what is new in it can be told. */
module Packing {
  import opened FixedWindows
  import opened Headings

  datatype Sizes = Sizes(max: nat, overlap: nat, structured: bool)

  /** A body as its lines, with the heading path of its first new unit. */
  datatype Packet = Packet(path: seq<Text>, body: seq<Text>)

  /** Units `lo..hi`, of which `lo..mid` are carried over; or one over-long unit cut up. */
  datatype Piece = Packed(lo: nat, mid: nat, hi: nat) | CutUp(at: nat)

  function Begin(p: Piece): nat {
    match p case Packed(_, mid, _) => mid case CutUp(at) => at
  }

  function End(p: Piece): nat {
    match p case Packed(_, _, hi) => hi case CutUp(at) => at + 1
  }

  /** How far the pieces go. */
  function Done(pieces: seq<Piece>): nat {
    if pieces == [] then 0 else End(pieces[|pieces| - 1])
  }

  function Total(units: seq<Unit>): nat {
    if units == [] then 0 else Total(units[..|units| - 1]) + |units[|units| - 1].text|
  }

  function Texts(units: seq<Unit>): seq<Text> {
    if units == [] then [] else Texts(units[..|units| - 1]) + [units[|units| - 1].text]
  }

  predicate Skipped(u: Unit, z: Sizes) {
    z.structured && u.isHeading
  }

  // ------------------------------------------------------------------ what a packing is

  ghost predicate AllSkipped(units: seq<Unit>, z: Sizes, a: nat, b: nat) {
    a <= b <= |units| && forall i :: a <= i < b ==> Skipped(units[i], z)
  }

  /** A chunk within the limit and of units that are; only an over-long unit is cut. */
  ghost predicate Fits(units: seq<Unit>, z: Sizes, p: Piece) {
    match p
    case Packed(lo, mid, hi) =>
      && lo <= mid < hi <= |units| && Total(units[lo..hi]) <= z.max
      && (forall i :: lo <= i < hi ==> !Skipped(units[i], z))
    case CutUp(at) => at < |units| && !Skipped(units[at], z) && |units[at].text| > z.max
  }

  function Budget(z: Sizes, incoming: nat): int {
    if z.overlap <= z.max - incoming then z.overlap else z.max - incoming
  }

  /** `lo..mid` is the longest end of `from..mid` within the budget. */
  ghost predicate LongestSuffix(units: seq<Unit>, from: nat, mid: nat, lo: nat, budget: int)
    requires mid <= |units|
  {
    && from <= lo <= mid && Total(units[lo..mid]) <= budget
    && (lo > from ==> Total(units[lo - 1..mid]) > budget)
  }

  /** A chunk that begins right where a packed one ended does so because that one was full, and carries
      as much of it as fits the budget; any other chunk carries nothing. */
  ghost predicate Carries(units: seq<Unit>, z: Sizes, before: seq<Piece>, p: Piece)
    requires Fits(units, z, p)
  {
    p.Packed? ==>
      if before != [] && before[|before| - 1].Packed? && Done(before) == p.mid then
        var q := before[|before| - 1];
        && q.lo <= q.hi
        && Total(units[q.lo..q.hi]) + |units[p.mid].text| > z.max
        && LongestSuffix(units, q.lo, q.hi, p.lo, Budget(z, |units[p.mid].text|))
      else p.lo == p.mid
  }

  ghost predicate Next(units: seq<Unit>, z: Sizes, before: seq<Piece>, p: Piece) {
    Fits(units, z, p) && AllSkipped(units, z, Done(before), Begin(p)) && Carries(units, z, before, p)
  }

  ghost predicate Good(units: seq<Unit>, z: Sizes, pieces: seq<Piece>) {
    forall k :: 0 <= k < |pieces| ==> Next(units, z, pieces[..k], pieces[k])
  }

  /** A packing of all the units. */
  ghost predicate Packing(units: seq<Unit>, z: Sizes, pieces: seq<Piece>) {
    Good(units, z, pieces) && AllSkipped(units, z, Done(pieces), |units|)
  }

  /** What a piece is rendered as. */
  function Render(units: seq<Unit>, z: Sizes, p: Piece): seq<Packet>
    requires ValidSizes(z.max, z.overlap) && Fits(units, z, p)
  {
    match p
    case Packed(lo, mid, hi) => [Packet(units[mid].path, Texts(units[lo..hi]))]
    case CutUp(at) => Cuts(units[at].path, Windows(units[at].text, z.max, 0))
  }

  /** How a piece is rendered: a packed one as one chunk with its units' texts for lines, headed with the path
      of the first unit that is new in it; an over-long unit as full lines and a last one, under its own path. */
  lemma RenderSays(units: seq<Unit>, z: Sizes, p: Piece, i: nat)
    requires ValidSizes(z.max, z.overlap) && Fits(units, z, p) && i < |Render(units, z, p)|
    ensures var packets := Render(units, z, p);
            && Begin(p) < |units| && packets[i].path == units[Begin(p)].path
            && match p
               case Packed(lo, mid, hi) =>
                 && |packets| == 1 && |packets[0].body| == hi - lo
                 && forall j :: lo <= j < hi ==> packets[0].body[j - lo] == units[j].text
               case CutUp(at) =>
                 && |packets[i].body| == 1 && 0 < |packets[i].body[0]| <= z.max
                 && (i + 1 < |packets| ==> |packets[i].body[0]| == z.max)
  {
    match p
    case Packed(lo, mid, hi) => TextsAre(units[lo..hi]);
    case CutUp(at) =>
      var windows := Windows(units[at].text, z.max, 0);
      WindowsSlide(units[at].text, z.max, 0);
      CutsAre(units[at].path, windows, i);
      assert i + 1 < |windows| ==> Continues(windows, i + 1, z.max, 0);
  }

  lemma {:induction false} CutsAre(path: seq<Text>, windows: seq<Text>, i: nat)
    requires i < |Cuts(path, windows)|
    ensures |Cuts(path, windows)| == |windows| && Cuts(path, windows)[i] == Packet(path, [windows[i]])
  {
    if |windows| > 1 {
      CutsAre(path, windows[1..], if i > 0 then i - 1 else 0);
    }
  }

  function Cuts(path: seq<Text>, windows: seq<Text>): seq<Packet> {
    if windows == [] then [] else [Packet(path, [windows[0]])] + Cuts(path, windows[1..])
  }

  ghost function Rendered(units: seq<Unit>, z: Sizes, pieces: seq<Piece>): seq<Packet>
    requires ValidSizes(z.max, z.overlap) && Good(units, z, pieces)
  {
    if pieces == [] then []
    else
      var last := |pieces| - 1;
      GoodFront(units, z, pieces);
      Rendered(units, z, pieces[..last]) + Render(units, z, pieces[last])
  }

  lemma GoodFront(units: seq<Unit>, z: Sizes, pieces: seq<Piece>)
    requires Good(units, z, pieces) && pieces != []
    ensures Good(units, z, pieces[..|pieces| - 1])
    ensures Next(units, z, pieces[..|pieces| - 1], pieces[|pieces| - 1])
  {
    var front := pieces[..|pieces| - 1];
    forall k | 0 <= k < |front|
      ensures Next(units, z, front[..k], front[k])
    {
      assert front[..k] == pieces[..k];
    }
  }

  lemma GoodMore(units: seq<Unit>, z: Sizes, pieces: seq<Piece>, p: Piece)
    requires Good(units, z, pieces) && Next(units, z, pieces, p)
    ensures Good(units, z, pieces + [p])
  {
    var all := pieces + [p];
    forall k | 0 <= k < |all|
      ensures Next(units, z, all[..k], all[k])
    {
      assert all[..k] == if k < |pieces| then pieces[..k] else pieces;
    }
  }

  // ------------------------------------------------------------------ totals

  lemma {:induction false} TotalFront(units: seq<Unit>, a: nat, b: nat)
    requires a < b <= |units|
    ensures Total(units[a..b]) == |units[a].text| + Total(units[a + 1..b])
    decreases b - a
  {
    assert units[a..b][..b - 1 - a] == units[a..b - 1];
    if a + 1 < b {
      TotalFront(units, a, b - 1);
      assert units[a + 1..b][..b - 1 - (a + 1)] == units[a + 1..b - 1];
    } else {
      assert units[a..b - 1] == [] && units[a + 1..b] == [];
    }
  }

  lemma TotalBack(units: seq<Unit>, a: nat, b: nat)
    requires a < b <= |units|
    ensures Total(units[a..b]) == Total(units[a..b - 1]) + |units[b - 1].text|
  {
    assert units[a..b][..b - 1 - a] == units[a..b - 1];
  }

  lemma {:induction false} TotalShrinks(units: seq<Unit>, a: nat, b: nat, a': nat, b': nat)
    requires a <= a' <= b' <= b <= |units|
    ensures Total(units[a'..b']) <= Total(units[a..b])
    decreases b - a
  {
    if a < a' {
      TotalFront(units, a, b);
      TotalShrinks(units, a + 1, b, a', b');
    } else if b' < b {
      TotalBack(units, a, b);
      TotalShrinks(units, a, b - 1, a', b');
    }
  }

  lemma {:induction false} BodyLength(units: seq<Unit>)
    ensures |Concat(Texts(units))| == Total(units)
  {
    if units != [] {
      BodyLength(units[..|units| - 1]);
      ConcatLast(Texts(units[..|units| - 1]), units[|units| - 1].text);
    }
  }

  lemma {:induction false} ConcatLast(texts: seq<Text>, last: Text)
    ensures Concat(texts + [last]) == Concat(texts) + last
  {
    if texts == [] {
      assert texts + [last] == [last];
      assert Concat([last][1..]) == [];
    } else {
      ConcatLast(texts[1..], last);
      assert (texts + [last])[0] == texts[0] && (texts + [last])[1..] == texts[1..] + [last];
      Associates(texts[0], Concat(texts[1..]), last);
    }
  }

  // ------------------------------------------------------------------ what follows of a packing

  /** No body is over the limit. */
  lemma {:induction false} BodiesFit(units: seq<Unit>, z: Sizes, pieces: seq<Piece>)
    requires ValidSizes(z.max, z.overlap) && Good(units, z, pieces)
    ensures forall c <- Rendered(units, z, pieces) :: |Concat(c.body)| <= z.max
  {
    if pieces != [] {
      var p := pieces[|pieces| - 1];
      GoodFront(units, z, pieces);
      BodiesFit(units, z, pieces[..|pieces| - 1]);
      match p
      case Packed(lo, mid, hi) => BodyLength(units[lo..hi]);
      case CutUp(at) =>
        WindowsSlide(units[at].text, z.max, 0);
        CutsFit(units[at].path, Windows(units[at].text, z.max, 0), z.max);
    }
  }

  lemma {:induction false} CutsFit(path: seq<Text>, windows: seq<Text>, max: nat)
    requires forall i :: 0 <= i < |windows| ==> |windows[i]| <= max
    ensures forall c <- Cuts(path, windows) :: |Concat(c.body)| <= max
  {
    if windows != [] {
      CutsFit(path, windows[1..], max);
      assert Concat([windows[0]]) == windows[0] by {
        ConcatLast([], windows[0]);
      }
    }
  }

  /** The carry is the longest end of the previous chunk within the budget... */
  lemma CarryIsLongest(units: seq<Unit>, from: nat, mid: nat, lo: nat, budget: int, j: nat)
    requires mid <= |units| && LongestSuffix(units, from, mid, lo, budget) && from <= j <= mid
    ensures Total(units[j..mid]) <= budget <==> lo <= j
  {
    if lo <= j {
      TotalShrinks(units, lo, mid, j, mid);
    } else {
      TotalShrinks(units, j, mid, lo - 1, mid);
    }
  }

  /** ... and never all of it. */
  lemma CarryIsProper(units: seq<Unit>, from: nat, mid: nat, lo: nat, z: Sizes, incoming: nat)
    requires mid <= |units| && LongestSuffix(units, from, mid, lo, Budget(z, incoming))
    requires Total(units[from..mid]) + incoming > z.max
    ensures from < lo
  {
  }

  /** What a chunk carries over, in the sizes themselves: chunk `k + 1` begins where the packed chunk `k` ends. */
  ghost predicate FollowsOn(units: seq<Unit>, z: Sizes, pieces: seq<Piece>, k: nat) {
    && Good(units, z, pieces) && k + 1 < |pieces| && pieces[k].Packed? && pieces[k + 1].Packed?
    && pieces[k + 1].mid == pieces[k].hi
  }

  /** What it carries is at most `overlap` words and leaves room for the next unit, and one unit more of the
      chunk before would be too much for one of the two; there always is one more. */
  lemma CarryIsWithinOverlap(units: seq<Unit>, z: Sizes, pieces: seq<Piece>, k: nat)
    requires FollowsOn(units, z, pieces, k)
    ensures var q, p := pieces[k], pieces[k + 1];
            && q.lo < p.lo <= p.mid < |units|
            && Total(units[p.lo..p.mid]) <= z.overlap
            && Total(units[p.lo..p.mid]) + |units[p.mid].text| <= z.max
            && (Total(units[p.lo - 1..p.mid]) > z.overlap
                || Total(units[p.lo - 1..p.mid]) + |units[p.mid].text| > z.max)
  {
    var q, p, before := pieces[k], pieces[k + 1], pieces[..k + 1];
    assert Next(units, z, before, p) && before[|before| - 1] == q;
    CarryIsProper(units, q.lo, q.hi, p.lo, z, |units[p.mid].text|);
  }

  /** A chunk that does not begin where a packed one ends carries nothing over. */
  lemma OtherwiseNoCarry(units: seq<Unit>, z: Sizes, pieces: seq<Piece>, k: nat)
    requires Good(units, z, pieces) && k < |pieces| && pieces[k].Packed?
    requires k > 0 ==> !FollowsOn(units, z, pieces, k - 1)
    ensures pieces[k].lo == pieces[k].mid
  {
    assert Next(units, z, pieces[..k], pieces[k]);
  }

  /** The new units of the pieces, in order. */
  ghost function NewUnits(units: seq<Unit>, z: Sizes, pieces: seq<Piece>): seq<Unit>
    requires Good(units, z, pieces)
  {
    if pieces == [] then []
    else
      var last := |pieces| - 1;
      GoodFront(units, z, pieces);
      NewUnits(units, z, pieces[..last]) + units[Begin(pieces[last])..End(pieces[last])]
  }

  lemma {:induction false} SkippedAreDropped(units: seq<Unit>, z: Sizes, a: nat, b: nat)
    requires AllSkipped(units, z, a, b)
    ensures Kept(units[..b], z.structured) == Kept(units[..a], z.structured)
    decreases b - a
  {
    if a < b {
      SkippedAreDropped(units, z, a, b - 1);
      assert units[..b] == units[..b - 1] + [units[b - 1]];
      KeptAppend(units[..b - 1], [units[b - 1]], z.structured);
      assert Kept([units[b - 1]], z.structured) == [];
    }
  }

  lemma {:induction false} TakenAreKept(units: seq<Unit>, z: Sizes, a: nat, b: nat)
    requires a <= b <= |units| && forall i :: a <= i < b ==> !Skipped(units[i], z)
    ensures Kept(units[..b], z.structured) == Kept(units[..a], z.structured) + units[a..b]
    decreases b - a
  {
    if a < b {
      TakenAreKept(units, z, a, b - 1);
      assert units[..b] == units[..b - 1] + [units[b - 1]];
      KeptAppend(units[..b - 1], [units[b - 1]], z.structured);
      assert Kept([units[b - 1]], z.structured) == [units[b - 1]];
      assert units[a..b] == units[a..b - 1] + [units[b - 1]];
    }
  }

  lemma {:induction false} NewUnitsSoFar(units: seq<Unit>, z: Sizes, pieces: seq<Piece>)
    requires Good(units, z, pieces)
    ensures Done(pieces) <= |units|
    ensures NewUnits(units, z, pieces) == Kept(units[..Done(pieces)], z.structured)
  {
    if pieces == [] {
      assert units[..0] == [];
    } else {
      var front, p := pieces[..|pieces| - 1], pieces[|pieces| - 1];
      GoodFront(units, z, pieces);
      NewUnitsSoFar(units, z, front);
      NewInPlace(units, z, front, p);
    }
  }

  lemma NewInPlace(units: seq<Unit>, z: Sizes, before: seq<Piece>, p: Piece)
    requires Next(units, z, before, p) && Done(before) <= |units|
    ensures Begin(p) <= End(p) <= |units|
    ensures Kept(units[..End(p)], z.structured) == Kept(units[..Done(before)], z.structured) + units[Begin(p)..End(p)]
  {
    SkippedAreDropped(units, z, Done(before), Begin(p));
    TakenAreKept(units, z, Begin(p), End(p));
  }

  /** Dropping what each chunk carries and stringing the rest together gives every unit once, in order
      (without the headings when they are in the prefix). */
  lemma NothingLostOrRepeated(units: seq<Unit>, z: Sizes, pieces: seq<Piece>)
    requires Packing(units, z, pieces)
    ensures NewUnits(units, z, pieces) == Kept(units, z.structured)
  {
    NewUnitsSoFar(units, z, pieces);
    SkippedAreDropped(units, z, Done(pieces), |units|);
    assert units[..|units|] == units;
  }

  /** The units of a structured chunk all have the path the chunk is headed with. */
  lemma {:induction false} OnePathPerChunk(units: seq<Unit>, z: Sizes, p: Piece, i: nat, j: nat)
    requires Sectioned(units) && z.structured && p.Packed? && Fits(units, z, p) && p.lo <= i <= j < p.hi
    ensures units[i].path == units[j].path
    decreases j - i
  {
    if i < j {
      OnePathPerChunk(units, z, p, i, j - 1);
      assert SamePathUnlessHeading(units, j);
    }
  }

  lemma {:induction false} TextsAre(units: seq<Unit>)
    ensures |Texts(units)| == |units| && forall i :: 0 <= i < |units| ==> Texts(units)[i] == units[i].text
  {
    if units != [] {
      TextsAre(units[..|units| - 1]);
    }
  }

  lemma {:induction false} WordsOfTexts(units: seq<Unit>)
    ensures Concat(Texts(units)) == UnitWords(units)
  {
    if units != [] {
      WordsOfTexts(units[1..]);
      TextsAre(units);
      TextsAre(units[1..]);
      assert Texts(units)[1..] == Texts(units[1..]);
    }
  }

  function Bodies(packets: seq<Packet>): Text {
    if packets == [] then [] else Concat(packets[0].body) + Bodies(packets[1..])
  }

  lemma {:induction false} CutsRestore(path: seq<Text>, words: Text, max: nat)
    requires max > 0
    ensures Bodies(Cuts(path, Windows(words, max, 0))) == words
  {
    var windows := Windows(words, max, 0);
    if words != [] {
      ConcatLast([], windows[0]);
      assert [windows[0]] == [] + [windows[0]];
      var cuts := Cuts(path, windows);
      assert cuts[1..] == Cuts(path, windows[1..]);
      if |words| > max {
        CutsRestore(path, words[max..], max);
        assert windows[1..] == Windows(words[max..], max, 0);
      } else {
        assert windows[1..] == [];
      }
    }
  }

  /** What a piece's chunks say, without the lines carried over. */
  function NewWords(units: seq<Unit>, z: Sizes, p: Piece): Text
    requires ValidSizes(z.max, z.overlap) && Fits(units, z, p)
  {
    if p.Packed? then TextsAre(units[p.lo..p.hi]); Concat(Render(units, z, p)[0].body[p.mid - p.lo..])
    else Bodies(Render(units, z, p))
  }

  lemma NewWordsAre(units: seq<Unit>, z: Sizes, p: Piece)
    requires ValidSizes(z.max, z.overlap) && Fits(units, z, p)
    ensures NewWords(units, z, p) == UnitWords(units[Begin(p)..End(p)])
  {
    match p
    case Packed(lo, mid, hi) =>
      TextsAre(units[lo..hi]);
      TextsAre(units[mid..hi]);
      assert Texts(units[lo..hi])[mid - lo..] == Texts(units[mid..hi]);
      WordsOfTexts(units[mid..hi]);
    case CutUp(at) =>
      CutsRestore(units[at].path, units[at].text, z.max);
      assert units[at..at + 1] == [units[at]];
      assert UnitWords([units[at]][1..]) == [];
  }

  ghost function Restored(units: seq<Unit>, z: Sizes, pieces: seq<Piece>): Text
    requires ValidSizes(z.max, z.overlap) && Good(units, z, pieces)
  {
    if pieces == [] then []
    else
      var last := |pieces| - 1;
      GoodFront(units, z, pieces);
      Restored(units, z, pieces[..last]) + NewWords(units, z, pieces[last])
  }

  lemma {:induction false} RestoredIsNewUnits(units: seq<Unit>, z: Sizes, pieces: seq<Piece>)
    requires ValidSizes(z.max, z.overlap) && Good(units, z, pieces)
    ensures Restored(units, z, pieces) == UnitWords(NewUnits(units, z, pieces))
  {
    if pieces != [] {
      var front, p := pieces[..|pieces| - 1], pieces[|pieces| - 1];
      GoodFront(units, z, pieces);
      RestoredIsNewUnits(units, z, front);
      NewWordsAre(units, z, p);
      UnitWordsAppend(NewUnits(units, z, front), units[Begin(p)..End(p)]);
    }
  }

  /** The chunks' words without what is carried over are the text's, headings aside. */
  lemma WordsAreRestored(lines: seq<Line>, split: seq<Text> -> seq<Text>, z: Sizes, pieces: seq<Piece>)
    requires ValidSizes(z.max, z.overlap) && KeepsAllWords(split)
    requires Packing(UnitsFrom(lines, 0, split), z, pieces)
    ensures Restored(UnitsFrom(lines, 0, split), z, pieces) == LineWords(lines, z.structured)
  {
    var units := UnitsFrom(lines, 0, split);
    RestoredIsNewUnits(units, z, pieces);
    NothingLostOrRepeated(units, z, pieces);
    UnitsKeepWords(lines, 0, split, z.structured);
    assert lines[0..] == lines;
  }

  // ------------------------------------------------------------------ the packing is unique

  /** Whatever two packings have in common at the start, they continue alike. */
  lemma SameNext(units: seq<Unit>, z: Sizes, before: seq<Piece>, p: Piece, q: Piece)
    requires Next(units, z, before, p) && Next(units, z, before, q)
    ensures Begin(p) == Begin(q) && p.Packed? == q.Packed?
    ensures p.Packed? ==> p.lo == q.lo
  {
    NotEarlier(units, z, before, p, q);
    NotEarlier(units, z, before, q, p);
    var at := Begin(p);
    if p.Packed? && q.CutUp? {
      TotalFrontOnly(units, p.lo, at, p.hi);
    } else if p.CutUp? && q.Packed? {
      TotalFrontOnly(units, q.lo, at, q.hi);
    } else if p.Packed? && before != [] && before[|before| - 1].Packed? && Done(before) == at {
      var b, budget := before[|before| - 1], Budget(z, |units[at].text|);
      CarryIsLongest(units, b.lo, b.hi, p.lo, budget, q.lo);
      CarryIsLongest(units, b.lo, b.hi, q.lo, budget, p.lo);
    }
  }

  lemma NotEarlier(units: seq<Unit>, z: Sizes, before: seq<Piece>, p: Piece, q: Piece)
    requires Next(units, z, before, p) && Next(units, z, before, q)
    ensures Begin(p) >= Begin(q)
  {
    assert !Skipped(units[Begin(p)], z);
  }

  lemma TotalFrontOnly(units: seq<Unit>, lo: nat, at: nat, hi: nat)
    requires lo <= at < hi <= |units|
    ensures |units[at].text| <= Total(units[lo..hi])
  {
    TotalShrinks(units, lo, hi, at, at + 1);
    TotalFront(units, at, at + 1);
  }

  lemma NextOf(units: seq<Unit>, z: Sizes, pieces: seq<Piece>, k: nat)
    requires Good(units, z, pieces) && k < |pieces|
    ensures Next(units, z, pieces[..k], pieces[k]) && Fits(units, z, pieces[k])
  {
  }

  lemma GoesOn(units: seq<Unit>, z: Sizes, pieces: seq<Piece>, k: nat)
    requires Packing(units, z, pieces) && k < |pieces|
    ensures End(pieces[k]) <= |units|
    ensures if k + 1 == |pieces| then AllSkipped(units, z, End(pieces[k]), |units|)
            else Next(units, z, pieces[..k + 1], pieces[k + 1]) && Done(pieces[..k + 1]) == End(pieces[k])
  {
    NextOf(units, z, pieces, k);
  }

  /** A chunk ends only at the end, at a heading, or because the next unit is too much for it. */
  lemma EndsWhenFull(units: seq<Unit>, z: Sizes, pieces: seq<Piece>, k: nat)
    requires Packing(units, z, pieces) && k < |pieces| && pieces[k].Packed?
    ensures var p := pieces[k];
            && p.lo <= p.hi <= |units|
            && (p.hi == |units| || Skipped(units[p.hi], z) || Total(units[p.lo..p.hi]) + |units[p.hi].text| > z.max)
  {
    hide Good, Total, LongestSuffix;
    NextOf(units, z, pieces, k);
    GoesOn(units, z, pieces, k);
  }

  /** A packing cannot end a chunk where another one goes on. */
  lemma NoShorter(units: seq<Unit>, z: Sizes, pieces: seq<Piece>, k: nat, q: Piece)
    requires Packing(units, z, pieces) && k < |pieces| && Fits(units, z, q)
    requires pieces[k].Packed? && q.Packed? && q.lo == pieces[k].lo && q.mid == pieces[k].mid
    ensures pieces[k].hi >= q.hi
  {
    hide Good, Carries, AllSkipped, LongestSuffix, Total;
    var p := pieces[k];
    NextOf(units, z, pieces, k);
    if p.hi < q.hi {
      TotalShrinks(units, q.lo, q.hi, q.lo, p.hi + 1);
      TotalBack(units, q.lo, p.hi + 1);
      EndsWhenFull(units, z, pieces, k);
    }
  }

  lemma SamePiece(units: seq<Unit>, z: Sizes, a: seq<Piece>, b: seq<Piece>, k: nat)
    requires Packing(units, z, a) && Packing(units, z, b) && k < |a| && k < |b| && a[..k] == b[..k]
    ensures a[k] == b[k]
  {
    hide Good, Carries, AllSkipped, LongestSuffix, Fits;
    NextOf(units, z, a, k);
    NextOf(units, z, b, k);
    SameNext(units, z, a[..k], a[k], b[k]);
    if a[k].Packed? {
      NoShorter(units, z, a, k, b[k]);
      NoShorter(units, z, b, k, a[k]);
    }
  }

  /** There is only one packing of the units: these conditions leave nothing open. */
  lemma {:induction false} PackingsAgree(units: seq<Unit>, z: Sizes, a: seq<Piece>, b: seq<Piece>, k: nat)
    requires Packing(units, z, a) && Packing(units, z, b) && k <= |a| && k <= |b|
    ensures a[..k] == b[..k]
  {
    hide *;
    if k > 0 {
      PackingsAgree(units, z, a, b, k - 1);
      SamePiece(units, z, a, b, k - 1);
      assert a[..k] == a[..k - 1] + [a[k - 1]] && b[..k] == b[..k - 1] + [b[k - 1]];
    }
  }

  lemma PackingIsUnique(units: seq<Unit>, z: Sizes, a: seq<Piece>, b: seq<Piece>)
    requires Packing(units, z, a) && Packing(units, z, b)
    ensures a == b
  {
    hide Good, AllSkipped;
    if |a| <= |b| {
      PackingsAgree(units, z, a, b, |a|);
      OnlyAPart(units, z, a, b);
    } else {
      PackingsAgree(units, z, a, b, |b|);
      OnlyAPart(units, z, b, a);
    }
  }

  /** A packing's beginning leaves units over. */
  lemma OnlyAPart(units: seq<Unit>, z: Sizes, a: seq<Piece>, b: seq<Piece>)
    requires Good(units, z, b)
    ensures a <= b ==> a == b || !AllSkipped(units, z, Done(a), |units|)
  {
    if a < b {
      assert b[..|a|] == a;
      assert Next(units, z, a, b[|a|]);
      assert !Skipped(units[Begin(b[|a|])], z);
    }
  }

  // ------------------------------------------------------------------ the loop

  /** Where the loop stands after `k` units: `current` is the input from `lo` on, the last `news` of it
      (`fresh` in the source) not in any chunk yet, and if there are any they are on their way to one. */
  ghost predicate At(units: seq<Unit>, z: Sizes, k: nat, pieces: seq<Piece>, current: seq<Unit>, news: nat) {
    var lo := k - |current|;
    && k <= |units| && 0 <= lo && current == units[lo..k]
    && news <= |current| && (news == 0 ==> current == [])
    && Good(units, z, pieces)
    && if news == 0 then Idle(units, z, k, pieces) else Next(units, z, pieces, Packed(lo, k - news, k))
  }

  /** Between chunks: whatever a packed chunk ended at has been passed. */
  ghost predicate Idle(units: seq<Unit>, z: Sizes, k: nat, pieces: seq<Piece>) {
    && AllSkipped(units, z, Done(pieces), k)
    && (pieces != [] && pieces[|pieces| - 1].Packed? ==> Done(pieces) < k)
  }

  /** `emit`. */
  function Emitted(k: nat, pieces: seq<Piece>, current: seq<Unit>, news: nat): seq<Piece>
    requires news <= |current| <= k
  {
    if news > 0 then pieces + [Packed(k - |current|, k - news, k)] else pieces
  }

  lemma EmitIsGood(units: seq<Unit>, z: Sizes, k: nat, pieces: seq<Piece>, current: seq<Unit>, news: nat)
    requires At(units, z, k, pieces, current, news)
    ensures var out := Emitted(k, pieces, current, news);
            && Good(units, z, out) && AllSkipped(units, z, Done(out), k)
            && (news == 0 && out != [] && out[|out| - 1].Packed? ==> Done(out) < k)
  {
    hide Good, Carries, LongestSuffix, Total;
    if news > 0 {
      GoodMore(units, z, pieces, Packed(k - |current|, k - news, k));
    }
  }

  lemma PassHeading(units: seq<Unit>, z: Sizes, k: nat, pieces: seq<Piece>, current: seq<Unit>, news: nat)
    requires At(units, z, k, pieces, current, news) && k < |units| && Skipped(units[k], z)
    ensures At(units, z, k + 1, Emitted(k, pieces, current, news), [], 0)
  {
    hide Good, Next;
    EmitIsGood(units, z, k, pieces, current, news);
    assert Idle(units, z, k + 1, Emitted(k, pieces, current, news));
  }

  lemma CutUnit(units: seq<Unit>, z: Sizes, k: nat, pieces: seq<Piece>, current: seq<Unit>, news: nat)
    requires At(units, z, k, pieces, current, news) && k < |units| && !Skipped(units[k], z)
    requires |units[k].text| > z.max
    ensures Next(units, z, Emitted(k, pieces, current, news), CutUp(k))
    ensures At(units, z, k + 1, Emitted(k, pieces, current, news) + [CutUp(k)], [], 0)
  {
    hide Good, Next, Idle;
    EmitIsGood(units, z, k, pieces, current, news);
    CutNext(units, z, k, Emitted(k, pieces, current, news));
  }

  lemma CutNext(units: seq<Unit>, z: Sizes, k: nat, before: seq<Piece>)
    requires Good(units, z, before) && AllSkipped(units, z, Done(before), k)
    requires k < |units| && !Skipped(units[k], z) && |units[k].text| > z.max
    ensures Next(units, z, before, CutUp(k))
    ensures Good(units, z, before + [CutUp(k)]) && Idle(units, z, k + 1, before + [CutUp(k)])
  {
    hide Good;
    GoodMore(units, z, before, CutUp(k));
  }

  lemma Restart(units: seq<Unit>, z: Sizes, out: seq<Piece>, from: nat, mid: nat, lo: nat, k: nat)
    requires out != [] && out[|out| - 1] == Packed(from, mid, k) && Fits(units, z, Packed(from, mid, k))
    requires k < |units| && !Skipped(units[k], z) && |units[k].text| <= z.max
    requires Total(units[from..k]) + |units[k].text| > z.max
    requires LongestSuffix(units, from, k, lo, Budget(z, |units[k].text|))
    ensures Next(units, z, out, Packed(lo, k, k + 1))
  {
    TotalBack(units, lo, k + 1);
    hide Total;
  }

  ghost predicate Tail(carried: seq<Unit>, current: seq<Unit>, budget: int) {
    && |carried| <= |current| && carried == current[|current| - |carried|..]
    && LongestSuffix(current, 0, |current|, |current| - |carried|, budget)
  }

  /** What `_overlap` says of `current` holds of the input's interval. */
  lemma SuffixInPlace(units: seq<Unit>, k: nat, current: seq<Unit>, carried: seq<Unit>, budget: int)
    requires |current| <= k < |units| && current == units[k - |current|..k] && Tail(carried, current, budget)
    ensures |carried| <= |current| && LongestSuffix(units, k - |current|, k, k - |carried|, budget)
    ensures carried + [units[k]] == units[k - |carried|..k + 1]
  {
    var n, c := |current|, |carried|;
    assert current[n - c..n] == units[k - c..k];
    if c < n {
      assert current[n - c - 1..n] == units[k - c - 1..k];
    }
    hide Total;
  }

  lemma EmitEnds(units: seq<Unit>, z: Sizes, k: nat, pieces: seq<Piece>, current: seq<Unit>, news: nat)
    requires At(units, z, k, pieces, current, news) && current != []
    ensures |current| <= k && news <= |current|
    ensures var out, p := Emitted(k, pieces, current, news), Packed(k - |current|, k - news, k);
            && Good(units, z, out) && out != [] && out[|out| - 1] == p
            && Fits(units, z, p) && current == units[p.lo..k]
  {
    EmitIsGood(units, z, k, pieces, current, news);
    hide Good, Carries, LongestSuffix, Total, AllSkipped;
  }

  lemma AtAfter(units: seq<Unit>, z: Sizes, k: nat, pieces: seq<Piece>, carried: seq<Unit>)
    requires |carried| <= k < |units| && carried + [units[k]] == units[k - |carried|..k + 1]
    requires Good(units, z, pieces) && Next(units, z, pieces, Packed(k - |carried|, k, k + 1))
    ensures At(units, z, k + 1, pieces, carried + [units[k]], 1)
  {
    hide Good, Next;
  }

  lemma Overflow(units: seq<Unit>, z: Sizes, k: nat, pieces: seq<Piece>, current: seq<Unit>, news: nat,
                 carried: seq<Unit>)
    requires At(units, z, k, pieces, current, news) && k < |units| && !Skipped(units[k], z)
    requires current != [] && |units[k].text| <= z.max && Total(current) + |units[k].text| > z.max
    requires Tail(carried, current, Budget(z, |units[k].text|)) && news <= |current| <= k
    ensures At(units, z, k + 1, Emitted(k, pieces, current, news), carried + [units[k]], 1)
  {
    hide *;
    EmitEnds(units, z, k, pieces, current, news);
    SuffixInPlace(units, k, current, carried, Budget(z, |units[k].text|));
    Restart(units, z, Emitted(k, pieces, current, news), k - |current|, k - news, k - |carried|, k);
    AtAfter(units, z, k, Emitted(k, pieces, current, news), carried);
  }

  lemma Start(units: seq<Unit>, z: Sizes, pieces: seq<Piece>, k: nat)
    requires Idle(units, z, k, pieces) && k < |units| && !Skipped(units[k], z) && |units[k].text| <= z.max
    ensures Next(units, z, pieces, Packed(k, k, k + 1))
  {
    TotalBack(units, k, k + 1);
  }

  lemma Extend(units: seq<Unit>, z: Sizes, pieces: seq<Piece>, lo: nat, mid: nat, k: nat)
    requires Next(units, z, pieces, Packed(lo, mid, k)) && k < |units| && !Skipped(units[k], z)
    requires Total(units[lo..k]) + |units[k].text| <= z.max
    ensures Next(units, z, pieces, Packed(lo, mid, k + 1))
  {
    hide Total, LongestSuffix, AllSkipped;
    TotalBack(units, lo, k + 1);
  }

  lemma AddUnit(units: seq<Unit>, z: Sizes, k: nat, pieces: seq<Piece>, current: seq<Unit>, news: nat)
    requires At(units, z, k, pieces, current, news) && k < |units| && !Skipped(units[k], z)
    requires |units[k].text| <= z.max && (current != [] ==> Total(current) + |units[k].text| <= z.max)
    ensures At(units, z, k + 1, pieces, current + [units[k]], news + 1)
  {
    hide Next, Good, Idle, Total;
    var lo := k - |current|;
    assert current + [units[k]] == units[lo..k + 1];
    if news == 0 {
      Start(units, z, pieces, k);
    } else {
      Extend(units, z, pieces, lo, k - news, k);
    }
  }

  /** `_overlap`: what of the previous chunk fits the overlap budget and the next chunk. */
  method Overlap(previous: seq<Unit>, incoming: nat, z: Sizes) returns (carried: seq<Unit>)
    requires incoming <= z.max
    ensures Tail(carried, previous, Budget(z, incoming))
    ensures Total(carried) <= z.overlap && Total(carried) + incoming <= z.max
    ensures var n := |previous| - |carried|;
            && 0 <= n && carried == previous[n..]
            && (n > 0 ==> Total(previous[n - 1..]) > z.overlap || Total(previous[n - 1..]) + incoming > z.max)
  {
    carried := [];
    var budget := Budget(z, incoming);
    var i := |previous|;
    assert previous[|previous|..] == [];
    while i > 0
      invariant 0 <= i <= |previous| && carried == previous[i..|previous|]
      invariant 0 <= budget == Budget(z, incoming) - Total(previous[i..|previous|])
    {
      TotalFront(previous, i - 1, |previous|);
      var size := |previous[i - 1].text|;
      if size > budget {
        break;
      }
      carried := [previous[i - 1]] + carried;
      budget := budget - size;
      i := i - 1;
    }
    assert previous[i..] == carried && (i > 0 ==> previous[i - 1..] == previous[i - 1..|previous|]);
  }

  function CutsFrom(path: seq<Text>, words: Text, start: nat, max: nat): seq<Packet>
    requires max > 0
  {
    if start >= |words| then [] else Cuts(path, Windows(words[start..], max, 0))
  }

  lemma OneCutMore(path: seq<Text>, words: Text, start: nat, max: nat, before: seq<Packet>)
    requires max > 0 && start < |words|
    ensures before + CutsFrom(path, words, start, max)
            == before + [Packet(path, [WindowAt(words, start, max)])] + CutsFrom(path, words, start + max, max)
  {
    WindowsFrom(words, start, max, 0);
    var all := Windows(words[start..], max, 0);
    assert all[1..] == if start + max >= |words| then [] else Windows(words[start + max..], max, 0);
    hide Windows;
    assert CutsFrom(path, words, start, max) == [Packet(path, [all[0]])] + Cuts(path, all[1..]);
    assert CutsFrom(path, words, start + max, max) == Cuts(path, all[1..]);
    Associates(before, [Packet(path, [all[0]])], Cuts(path, all[1..]));
  }

  /** The hard split of an over-long unit. */
  method Cut(unit: Unit, max: nat, before: seq<Packet>) returns (out: seq<Packet>)
    requires max > 0
    ensures out == before + Cuts(unit.path, Windows(unit.text, max, 0))
  {
    out := before;
    var start := 0;
    assert unit.text[0..] == unit.text;
    ghost var all := before + CutsFrom(unit.path, unit.text, 0, max);
    while start < |unit.text|
      invariant 0 <= start && out + CutsFrom(unit.path, unit.text, start, max) == all
    {
      OneCutMore(unit.path, unit.text, start, max, out);
      out := out + [Packet(unit.path, [WindowAt(unit.text, start, max)])];
      start := start + max;
    }
    assert out + [] == all;
  }

  /** `emit` on the output. */
  function WithEmitted(out: seq<Packet>, current: seq<Unit>, news: nat): seq<Packet>
    requires news <= |current|
  {
    if news > 0 then out + [Packet(current[|current| - news].path, Texts(current))] else out
  }

  /** The loop's state, with the output rendered so far. */
  ghost predicate Standing(units: seq<Unit>, z: Sizes, k: nat, pieces: seq<Piece>, current: seq<Unit>, news: nat,
                           out: seq<Packet>)
    requires ValidSizes(z.max, z.overlap)
  {
    At(units, z, k, pieces, current, news) && news <= |current| <= k && out == Rendered(units, z, pieces)
  }

  lemma RenderedMore(units: seq<Unit>, z: Sizes, pieces: seq<Piece>, p: Piece)
    requires ValidSizes(z.max, z.overlap) && Good(units, z, pieces) && Next(units, z, pieces, p)
    ensures Good(units, z, pieces + [p])
    ensures Rendered(units, z, pieces + [p]) == Rendered(units, z, pieces) + Render(units, z, p)
  {
    GoodMore(units, z, pieces, p);
    assert (pieces + [p])[..|pieces|] == pieces;
  }

  lemma EmitRenders(units: seq<Unit>, z: Sizes, k: nat, pieces: seq<Piece>, current: seq<Unit>, news: nat,
                    out: seq<Packet>)
    requires ValidSizes(z.max, z.overlap) && Standing(units, z, k, pieces, current, news, out)
    ensures var after := Emitted(k, pieces, current, news);
            Good(units, z, after) && WithEmitted(out, current, news) == Rendered(units, z, after)
  {
    hide Good, Next, Rendered, Idle;
    EmitIsGood(units, z, k, pieces, current, news);
    if news > 0 {
      var p := Packed(k - |current|, k - news, k);
      EmitEnds(units, z, k, pieces, current, news);
      assert Render(units, z, p) == [Packet(current[|current| - news].path, Texts(current))];
      hide Render, Fits, Texts;
      RenderedMore(units, z, pieces, p);
    }
  }

  lemma StandAfterHeading(units: seq<Unit>, z: Sizes, k: nat, pieces: seq<Piece>, current: seq<Unit>, news: nat,
                          out: seq<Packet>)
    requires ValidSizes(z.max, z.overlap) && Standing(units, z, k, pieces, current, news, out)
    requires k < |units| && Skipped(units[k], z)
    ensures Standing(units, z, k + 1, Emitted(k, pieces, current, news), [], 0, WithEmitted(out, current, news))
    ensures current == [] ==> WithEmitted(out, current, news) == out
  {
    EmitRenders(units, z, k, pieces, current, news, out);
    PassHeading(units, z, k, pieces, current, news);
    hide At, Rendered, Emitted, WithEmitted;
  }

  lemma StandAfterCut(units: seq<Unit>, z: Sizes, k: nat, pieces: seq<Piece>, current: seq<Unit>, news: nat,
                      out: seq<Packet>)
    requires ValidSizes(z.max, z.overlap) && Standing(units, z, k, pieces, current, news, out)
    requires k < |units| && !Skipped(units[k], z) && |units[k].text| > z.max
    ensures Standing(units, z, k + 1, Emitted(k, pieces, current, news) + [CutUp(k)], [], 0,
                     WithEmitted(out, current, news) + Cuts(units[k].path, Windows(units[k].text, z.max, 0)))
  {
    EmitRenders(units, z, k, pieces, current, news, out);
    CutUnit(units, z, k, pieces, current, news);
    hide At, Emitted, WithEmitted, Rendered, Next, Good;
    RenderedMore(units, z, Emitted(k, pieces, current, news), CutUp(k));
  }

  lemma StandAfterOverflow(units: seq<Unit>, z: Sizes, k: nat, pieces: seq<Piece>, current: seq<Unit>, news: nat,
                           out: seq<Packet>, carried: seq<Unit>)
    requires ValidSizes(z.max, z.overlap) && Standing(units, z, k, pieces, current, news, out)
    requires k < |units| && !Skipped(units[k], z) && |units[k].text| <= z.max
    requires current != [] && Total(current) + |units[k].text| > z.max
    requires Tail(carried, current, Budget(z, |units[k].text|))
    ensures Standing(units, z, k + 1, Emitted(k, pieces, current, news), carried + [units[k]], 1,
                     WithEmitted(out, current, news))
    ensures |carried| <= k
  {
    EmitRenders(units, z, k, pieces, current, news, out);
    Overflow(units, z, k, pieces, current, news, carried);
    assert |carried| <= |current|;
    hide At, Emitted, WithEmitted, Rendered, Tail, Total;
  }

  lemma StandAfterUnit(units: seq<Unit>, z: Sizes, k: nat, pieces: seq<Piece>, current: seq<Unit>, news: nat,
                       out: seq<Packet>)
    requires ValidSizes(z.max, z.overlap) && Standing(units, z, k, pieces, current, news, out)
    requires k < |units| && !Skipped(units[k], z) && |units[k].text| <= z.max
    requires current != [] ==> Total(current) + |units[k].text| <= z.max
    ensures Standing(units, z, k + 1, pieces, current + [units[k]], news + 1, out)
  {
    AddUnit(units, z, k, pieces, current, news);
    hide At, Rendered, Total;
  }

  lemma StandAtStart(units: seq<Unit>, z: Sizes)
    requires ValidSizes(z.max, z.overlap)
    ensures Standing(units, z, 0, [], [], 0, [])
  {
  }

  lemma StandAtEnd(units: seq<Unit>, z: Sizes, pieces: seq<Piece>, current: seq<Unit>, news: nat, out: seq<Packet>)
    requires ValidSizes(z.max, z.overlap) && Standing(units, z, |units|, pieces, current, news, out)
    ensures var after := Emitted(|units|, pieces, current, news);
            Packing(units, z, after) && WithEmitted(out, current, news) == Rendered(units, z, after)
  {
    EmitRenders(units, z, |units|, pieces, current, news, out);
    EmitIsGood(units, z, |units|, pieces, current, news);
  }

  lemma SkippedIff(units: seq<Unit>, z: Sizes, k: nat)
    requires Sectioned(units) && k < |units|
    ensures units[k].startsSection == units[k].isHeading
    ensures Skipped(units[k], z) <==> z.structured && units[k].isHeading
  {
  }

  /** The loop's body for a unit that is not in the prefix already. */
  method Take(unit: Unit, z: Sizes, current: seq<Unit>, news: nat, out: seq<Packet>, ghost units: seq<Unit>,
              ghost k: nat, ghost pieces: seq<Piece>)
    returns (current': seq<Unit>, news': nat, out': seq<Packet>, ghost pieces': seq<Piece>)
    requires ValidSizes(z.max, z.overlap) && z.max > 0 && Standing(units, z, k, pieces, current, news, out)
    requires news <= |current| <= k < |units| && unit == units[k] && !Skipped(unit, z)
    ensures Standing(units, z, k + 1, pieces', current', news', out')
  {
    hide *;
    var size := |unit.text|;
    if size > z.max {
      StandAfterCut(units, z, k, pieces, current, news, out);
      out' := Cut(unit, z.max, WithEmitted(out, current, news));
      return [], 0, out', Emitted(k, pieces, current, news) + [CutUp(k)];
    }
    current', news', out', pieces' := current, news, out, pieces;
    if current != [] && Total(current) + size > z.max {
      current' := Overlap(current, size, z);
      StandAfterOverflow(units, z, k, pieces, current, news, out, current');
      out', pieces' := WithEmitted(out, current, news), Emitted(k, pieces, current, news);
      news' := 0;
    } else {
      StandAfterUnit(units, z, k, pieces, current, news, out);
    }
    current', news' := current' + [unit], news' + 1;
  }

  lemma StandingSizes(units: seq<Unit>, z: Sizes, k: nat, pieces: seq<Piece>, current: seq<Unit>, news: nat,
                      out: seq<Packet>)
    requires ValidSizes(z.max, z.overlap) && Standing(units, z, k, pieces, current, news, out)
    ensures news <= |current| <= k && z.max > 0
  {
  }

  /** The loop's body for a heading of a structured text: the chunk before it ends. */
  method EndSection(z: Sizes, current: seq<Unit>, news: nat, out: seq<Packet>, ghost units: seq<Unit>, ghost k: nat,
                    ghost pieces: seq<Piece>)
    returns (out': seq<Packet>, ghost pieces': seq<Piece>)
    requires ValidSizes(z.max, z.overlap) && Standing(units, z, k, pieces, current, news, out)
    requires news <= |current| <= k < |units| && Skipped(units[k], z)
    ensures Standing(units, z, k + 1, pieces', [], 0, out')
  {
    hide *;
    StandAfterHeading(units, z, k, pieces, current, news, out);
    out' := if current != [] then WithEmitted(out, current, news) else out;
    pieces' := Emitted(k, pieces, current, news);
  }

  /** The output is the one packing of the units, rendered. */
  ghost predicate IsPacked(units: seq<Unit>, z: Sizes, out: seq<Packet>)
    requires ValidSizes(z.max, z.overlap)
  {
    exists pieces :: Packing(units, z, pieces) && out == Rendered(units, z, pieces)
  }

  /** `_pack`. In a structured text a unit that starts a section is a heading, so the two tests at the
      top of the source's loop are one. */
  method Pack(units: seq<Unit>, z: Sizes) returns (out: seq<Packet>)
    requires ValidSizes(z.max, z.overlap) && Sectioned(units)
    ensures IsPacked(units, z, out)
  {
    hide *;
    out := [];
    ghost var pieces: seq<Piece> := [];
    var current: seq<Unit>, news := [], 0;
    StandAtStart(units, z);
    for k := 0 to |units|
      invariant Standing(units, z, k, pieces, current, news, out)
    {
      StandingSizes(units, z, k, pieces, current, news, out);
      SkippedIff(units, z, k);
      if z.structured && units[k].startsSection {
        out, pieces := EndSection(z, current, news, out, units, k, pieces);
        current, news := [], 0;
      } else {
        current, news, out, pieces := Take(units[k], z, current, news, out, units, k, pieces);
      }
    }
    StandingSizes(units, z, |units|, pieces, current, news, out);
    StandAtEnd(units, z, pieces, current, news, out);
    Witness(units, z, Emitted(|units|, pieces, current, news), WithEmitted(out, current, news));
    out := WithEmitted(out, current, news);
  }

  lemma Witness(units: seq<Unit>, z: Sizes, pieces: seq<Piece>, out: seq<Packet>)
    requires ValidSizes(z.max, z.overlap) && Packing(units, z, pieces) && out == Rendered(units, z, pieces)
    ensures IsPacked(units, z, out)
  {
  }

  /** A section's chunks: they are the packing of its units, no body is over the limit, and without what
      is carried over they say what the section says, headings aside. */
  ghost predicate ChunksOf(lines: seq<Line>, split: seq<Text> -> seq<Text>, z: Sizes, out: seq<Packet>)
    requires ValidSizes(z.max, z.overlap)
  {
    var units := UnitsFrom(lines, 0, split);
    && (forall c <- out :: |Concat(c.body)| <= z.max)
    && exists pieces :: Packing(units, z, pieces) && out == Rendered(units, z, pieces)
                        && Restored(units, z, pieces) == LineWords(lines, z.structured)
  }

  lemma PackedIsChunks(lines: seq<Line>, split: seq<Text> -> seq<Text>, z: Sizes, out: seq<Packet>)
    requires ValidSizes(z.max, z.overlap) && KeepsAllWords(split) && IsPacked(UnitsFrom(lines, 0, split), z, out)
    ensures ChunksOf(lines, split, z, out)
  {
    var units := UnitsFrom(lines, 0, split);
    var pieces :| Packing(units, z, pieces) && out == Rendered(units, z, pieces);
    WordsAreRestored(lines, split, z, pieces);
    BodiesFit(units, z, pieces);
  }

  /** What `SentenceChunker.chunk` does with one section, before the prefix is put in front. */
  method ChunkSection(lines: seq<Line>, split: seq<Text> -> seq<Text>, z: Sizes) returns (out: seq<Packet>)
    requires ValidSizes(z.max, z.overlap) && KeepsAllWords(split)
    ensures ChunksOf(lines, split, z, out)
  {
    hide *;
    var units := SplitUnits(lines, split);
    UnitsAreSectioned(lines, 0, split);
    out := Pack(units, z);
    PackedIsChunks(lines, split, z, out);
  }

  // ------------------------------------------------------------------ a document

  datatype DocumentSection = DocumentSection(lines: seq<Line>, page: int)

  /** A chunk of the document: its place, what is put in front of it, and its packet. */
  datatype DocumentChunk = DocumentChunk(index: nat, prefix: seq<Text>, packet: Packet, page: int)

  /** `_context_prefix`: the title, unless there is none or it is also the top heading, and the path. */
  function ContextPrefix(title: Text, path: seq<Text>): seq<Text> {
    if title == [] || (path != [] && path[0] == title) then path else [title] + path
  }

  /** It is the shortest that begins with the title, if there is one, and ends with the path. */
  ghost predicate Introduces(prefix: seq<Text>, title: Text, path: seq<Text>) {
    && |path| <= |prefix| && prefix[|prefix| - |path|..] == path
    && (title != [] ==> prefix != [] && prefix[0] == title)
  }

  lemma PrefixIsShortest(title: Text, path: seq<Text>, other: seq<Text>)
    ensures Introduces(ContextPrefix(title, path), title, path)
    ensures Introduces(other, title, path) ==>
              |ContextPrefix(title, path)| < |other| || other == ContextPrefix(title, path)
  {
    var prefix := ContextPrefix(title, path);
    assert [title] + path == prefix ==> prefix[1..] == path;
    if Introduces(other, title, path) && |other| <= |prefix| {
      if |other| == |path| {
        assert other[0..] == other;
      } else {
        assert other == [other[0]] + other[1..];
      }
    }
  }

  function PrefixOf(z: Sizes, title: Text, packet: Packet): seq<Text> {
    if z.structured then ContextPrefix(title, packet.path) else []
  }

  function Laid(packets: seq<Packet>, z: Sizes, title: Text, page: int, from: nat): seq<DocumentChunk> {
    if packets == [] then []
    else
      [DocumentChunk(from, PrefixOf(z, title, packets[0]), packets[0], page)]
      + Laid(packets[1..], z, title, page, from + 1)
  }

  /** The chunks are the sections' chunks, section after section. */
  ghost predicate ChunksOfAll(sections: seq<DocumentSection>, title: Text, split: seq<Text> -> seq<Text>, z: Sizes,
                              chunks: seq<DocumentChunk>)
    requires ValidSizes(z.max, z.overlap)
  {
    if sections == [] then chunks == []
    else
      var last := sections[|sections| - 1];
      exists n, packets ::
        && 0 <= n <= |chunks| && ChunksOf(last.lines, split, z, packets)
        && ChunksOfAll(sections[..|sections| - 1], title, split, z, chunks[..n])
        && chunks[n..] == Laid(packets, z, title, last.page, n)
  }

  lemma {:induction false} LaidInOrder(packets: seq<Packet>, z: Sizes, title: Text, page: int, from: nat, i: nat)
    requires i < |Laid(packets, z, title, page, from)|
    ensures |Laid(packets, z, title, page, from)| == |packets|
    ensures Laid(packets, z, title, page, from)[i]
            == DocumentChunk(from + i, PrefixOf(z, title, packets[i]), packets[i], page)
  {
    if i > 0 {
      LaidInOrder(packets[1..], z, title, page, from + 1, i - 1);
    } else if |packets| > 1 {
      LaidInOrder(packets[1..], z, title, page, from + 1, 0);
    }
  }

  /** The packet is one of the chunks of section `k`, and so is the page. */
  ghost predicate OfSection(sections: seq<DocumentSection>, split: seq<Text> -> seq<Text>, z: Sizes,
                            chunk: DocumentChunk, k: nat)
    requires ValidSizes(z.max, z.overlap) && k < |sections|
  {
    && chunk.page == sections[k].page
    && exists packets :: ChunksOf(sections[k].lines, split, z, packets) && chunk.packet in packets
  }

  /** Chunks are numbered through the document, come with the page of their section, and are headed with
      the path of their first new unit. */
  lemma {:induction false} ChunksAreNumbered(sections: seq<DocumentSection>, title: Text, split: seq<Text> -> seq<Text>,
                                             z: Sizes, chunks: seq<DocumentChunk>, i: nat)
    returns (k: nat)
    requires ValidSizes(z.max, z.overlap) && ChunksOfAll(sections, title, split, z, chunks) && i < |chunks|
    ensures chunks[i].index == i && k < |sections| && OfSection(sections, split, z, chunks[i], k)
    ensures chunks[i].prefix == if z.structured then ContextPrefix(title, chunks[i].packet.path) else []
  {
    hide ChunksOf, Laid, ContextPrefix;
    var last := sections[|sections| - 1];
    var n, packets :|
      && 0 <= n <= |chunks| && ChunksOf(last.lines, split, z, packets)
      && ChunksOfAll(sections[..|sections| - 1], title, split, z, chunks[..n])
      && chunks[n..] == Laid(packets, z, title, last.page, n);
    if i < n {
      k := ChunksAreNumbered(sections[..|sections| - 1], title, split, z, chunks[..n], i);
    } else {
      hide ChunksOfAll;
      k := |sections| - 1;
      LaidInOrder(packets, z, title, last.page, n, i - n);
      assert chunks[i] == chunks[n..][i - n] && chunks[i].packet == packets[i - n];
    }
  }

  /** `SentenceChunker.chunk`. */
  method ChunkDocument(sections: seq<DocumentSection>, title: Text, split: seq<Text> -> seq<Text>, z: Sizes)
    returns (chunks: seq<DocumentChunk>)
    requires ValidSizes(z.max, z.overlap) && KeepsAllWords(split)
    ensures ChunksOfAll(sections, title, split, z, chunks)
  {
    hide *;
    chunks := [];
    NoSections(title, split, z);
    for k := 0 to |sections|
      invariant ChunksOfAll(sections[..k], title, split, z, chunks)
    {
      var packets := ChunkSection(sections[k].lines, split, z);
      OneSectionMore(sections, k, title, split, z, chunks, packets);
      chunks := AppendAll(chunks, packets, z, title, sections[k].page);
    }
    assert sections[..|sections|] == sections;
  }

  lemma NoSections(title: Text, split: seq<Text> -> seq<Text>, z: Sizes)
    requires ValidSizes(z.max, z.overlap)
    ensures forall sections: seq<DocumentSection> :: ChunksOfAll(sections[..0], title, split, z, [])
  {
  }

  lemma OneSectionMore(sections: seq<DocumentSection>, k: nat, title: Text, split: seq<Text> -> seq<Text>, z: Sizes,
                       before: seq<DocumentChunk>, packets: seq<Packet>)
    requires ValidSizes(z.max, z.overlap) && k < |sections| && ChunksOf(sections[k].lines, split, z, packets)
    requires ChunksOfAll(sections[..k], title, split, z, before)
    ensures ChunksOfAll(sections[..k + 1], title, split, z,
                        before + Laid(packets, z, title, sections[k].page, |before|))
  {
    hide ChunksOf, Laid;
    var all, n := before + Laid(packets, z, title, sections[k].page, |before|), |before|;
    assert sections[..k + 1][..k] == sections[..k] && sections[..k + 1][k] == sections[k];
    assert all[..n] == before && all[n..] == Laid(packets, z, title, sections[k].page, n);
  }

  /** The loop over a section's packets. */
  method AppendAll(before: seq<DocumentChunk>, packets: seq<Packet>, z: Sizes, title: Text, page: int)
    returns (chunks: seq<DocumentChunk>)
    ensures chunks == before + Laid(packets, z, title, page, |before|)
  {
    chunks := before;
    ghost var all := before + Laid(packets, z, title, page, |before|);
    assert packets[0..] == packets;
    for i := 0 to |packets|
      invariant chunks + Laid(packets[i..], z, title, page, |chunks|) == all
    {
      assert packets[i..][1..] == packets[i + 1..];
      ghost var rest := Laid(packets[i + 1..], z, title, page, |chunks| + 1);
      var chunk := DocumentChunk(|chunks|, PrefixOf(z, title, packets[i]), packets[i], page);
      assert chunks + ([chunk] + rest) == chunks + [chunk] + rest;
      chunks := chunks + [chunk];
    }
    assert chunks + [] == all;
  }
}
