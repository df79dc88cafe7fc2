/** `FixedWindowChunker` of app/rag/chunking.py. A text is the sequence of its words. */
module FixedWindows {
  type Text = seq<string>

  datatype Section = Section(words: Text, page: int)

  datatype Chunk = Chunk(index: nat, words: Text, page: int)

  /** What the chunkers' constructors demand. */
  predicate ValidSizes(max: int, overlap: int) {
    0 <= overlap < max
  }

  /** One window, and the same again from `max - overlap` words further on, until one reaches the end. */
  function Windows(words: Text, max: nat, overlap: nat): (windows: seq<Text>)
    requires ValidSizes(max, overlap)
  {
    if words == [] then []
    else if |words| <= max then [words]
    else [words[..max]] + Windows(words[max - overlap..], max, overlap)
  }

  /** Put back together: the first window, then what each later one adds after its overlap. */
  function Reassembled(windows: seq<Text>, overlap: nat): Text
    requires forall i :: 0 < i < |windows| ==> |windows[i]| >= overlap
    decreases |windows|
  {
    if windows == [] then []
    else if |windows| == 1 then windows[0]
    else
      var front := windows[..|windows| - 1];
      Reassembled(front, overlap) + windows[|windows| - 1][overlap..]
  }

  /** A window after the first opens with the last `overlap` words of the full one before it. */
  ghost predicate Continues(windows: seq<Text>, i: nat, max: nat, overlap: nat)
    requires ValidSizes(max, overlap) && 0 < i < |windows|
  {
    && |windows[i]| > overlap && |windows[i - 1]| == max
    && windows[i][..overlap] == windows[i - 1][max - overlap..]
  }

  /** Every window has words, at most `max` of them, and each one after the first adds at least one. */
  ghost predicate Sliding(windows: seq<Text>, max: nat, overlap: nat)
    requires ValidSizes(max, overlap)
  {
    && (forall i :: 0 <= i < |windows| ==> 0 < |windows[i]| <= max)
    && (forall i :: 0 < i < |windows| ==> Continues(windows, i, max, overlap))
  }

  lemma {:induction false} WindowsSlide(words: Text, max: nat, overlap: nat)
    requires ValidSizes(max, overlap)
    ensures Sliding(Windows(words, max, overlap), max, overlap)
    ensures words != [] ==>
              Windows(words, max, overlap) != []
              && Windows(words, max, overlap)[0] == words[..if |words| <= max then |words| else max]
  {
    if |words| > max {
      var rest := words[max - overlap..];
      WindowsSlide(rest, max, overlap);
      var all, later := Windows(words, max, overlap), Windows(rest, max, overlap);
      forall i | 0 < i < |all|
        ensures Continues(all, i, max, overlap)
      {
        assert i > 1 ==> Continues(later, i - 1, max, overlap);
      }
    }
  }

  /** Moving `Reassembled` from the back to the front. */
  lemma {:induction false} ReassembledFromFront(w: Text, windows: seq<Text>, overlap: nat)
    requires windows != [] && forall i :: 0 <= i < |windows| ==> |windows[i]| >= overlap
    ensures |Reassembled(windows, overlap)| >= overlap
    ensures Reassembled([w] + windows, overlap) == w + Reassembled(windows, overlap)[overlap..]
    decreases |windows|
  {
    var all, last := [w] + windows, |windows| - 1;
    assert all[..|all| - 1] == [w] + windows[..last];
    if last > 0 {
      ReassembledFromFront(w, windows[..last], overlap);
    }
  }

  /** Dropping the overlap gives the section's words back. */
  lemma {:induction false} WindowsLoseNothing(words: Text, max: nat, overlap: nat)
    requires ValidSizes(max, overlap)
    ensures forall i :: 0 < i < |Windows(words, max, overlap)| ==> |Windows(words, max, overlap)[i]| >= overlap
    ensures Reassembled(Windows(words, max, overlap), overlap) == words
  {
    WindowsSlide(words, max, overlap);
    forall i | 0 < i < |Windows(words, max, overlap)|
      ensures |Windows(words, max, overlap)[i]| >= overlap
    {
      assert Continues(Windows(words, max, overlap), i, max, overlap);
    }
    if |words| > max {
      var rest := words[max - overlap..];
      WindowsSlide(rest, max, overlap);
      WindowsLoseNothing(rest, max, overlap);
      forall i | 0 <= i < |Windows(rest, max, overlap)|
        ensures |Windows(rest, max, overlap)[i]| >= overlap
      {
        assert i > 0 ==> Continues(Windows(rest, max, overlap), i, max, overlap);
      }
      ReassembledFromFront(words[..max], Windows(rest, max, overlap), overlap);
      assert words == words[..max] + rest[overlap..];
    }
  }

  function CeilDiv(a: nat, b: nat): nat
    requires b > 0
  {
    (a + b - 1) / b
  }

  lemma QuotientIs(x: nat, b: nat, q: nat)
    requires b > 0 && q * b <= x < (q + 1) * b
    ensures x / b == q
  {
    var p := x / b;
    assert p * b <= x < (p + 1) * b;
    FewerTimes(p, q, b);
    FewerTimes(q, p, b);
  }

  lemma FewerTimes(p: nat, q: nat, b: nat)
    ensures p < q ==> (p + 1) * b <= q * b
  {
  }

  lemma CeilDivStep(a: nat, b: nat)
    requires 0 < b <= a
    ensures CeilDiv(a, b) == 1 + CeilDiv(a - b, b)
  {
    var q := (a - 1) / b;
    assert q * b <= a - 1 < (q + 1) * b;
    QuotientIs(a + b - 1, b, q + 1);
  }

  lemma CeilDivSmall(a: nat, b: nat)
    requires a <= b && b > 0
    ensures CeilDiv(a, b) == if a == 0 then 0 else 1
  {
    QuotientIs(a + b - 1, b, if a == 0 then 0 else 1);
  }

  lemma {:induction false} WindowCount(words: Text, max: nat, overlap: nat)
    requires ValidSizes(max, overlap)
    ensures |Windows(words, max, overlap)| ==
            if words == [] then 0
            else if |words| <= max then 1
            else 1 + CeilDiv(|words| - max, max - overlap)
  {
    if |words| > max {
      var step := max - overlap;
      WindowCount(words[step..], max, overlap);
      hide CeilDiv;
      if |words| - max >= step {
        CeilDivStep(|words| - max, step);
        CeilDivSmall(0, step);
      } else {
        CeilDivSmall(|words| - max, step);
      }
    }
  }

  /** The chunks of the sections, numbered through. */
  function Chunked(sections: seq<Section>, max: nat, overlap: nat): (chunks: seq<Chunk>)
    requires ValidSizes(max, overlap)
  {
    if sections == [] then []
    else
      var last := sections[|sections| - 1];
      var before := Chunked(sections[..|sections| - 1], max, overlap);
      before + Numbered(Windows(last.words, max, overlap), last.page, |before|)
  }

  function Numbered(windows: seq<Text>, page: int, from: nat): seq<Chunk> {
    if windows == [] then [] else [Chunk(from, windows[0], page)] + Numbered(windows[1..], page, from + 1)
  }

  lemma {:induction false} NumberedIs(windows: seq<Text>, page: int, from: nat)
    ensures |Numbered(windows, page, from)| == |windows|
    ensures forall i :: 0 <= i < |windows| ==> Numbered(windows, page, from)[i] == Chunk(from + i, windows[i], page)
  {
    if windows != [] {
      NumberedIs(windows[1..], page, from + 1);
    }
  }

  /** A chunk's index is its place among all the sections' chunks. */
  lemma {:induction false} IndexedInOrder(sections: seq<Section>, max: nat, overlap: nat, i: nat)
    requires ValidSizes(max, overlap) && i < |Chunked(sections, max, overlap)|
    ensures Chunked(sections, max, overlap)[i].index == i
  {
    var front, last := sections[..|sections| - 1], sections[|sections| - 1];
    if i < |Chunked(front, max, overlap)| {
      IndexedInOrder(front, max, overlap, i);
    } else {
      NumberedIs(Windows(last.words, max, overlap), last.page, |Chunked(front, max, overlap)|);
    }
  }

  /** Section after section, window after window, each with its section's page. */
  lemma {:induction false} SectionsInOrder(sections: seq<Section>, max: nat, overlap: nat, s: nat, w: nat)
    requires ValidSizes(max, overlap) && s < |sections| && w < |Windows(sections[s].words, max, overlap)|
    ensures var all, n := Chunked(sections, max, overlap), |Chunked(sections[..s], max, overlap)|;
            && n + |Windows(sections[s].words, max, overlap)| == |Chunked(sections[..s + 1], max, overlap)| <= |all|
            && all[n + w] == Chunk(n + w, Windows(sections[s].words, max, overlap)[w], sections[s].page)
  {
    hide Windows, Chunked, Numbered;
    var front, last := sections[..|sections| - 1], sections[|sections| - 1];
    LastSectionOnTop(sections, max, overlap);
    NumberedIs(Windows(last.words, max, overlap), last.page, |Chunked(front, max, overlap)|);
    if s < |front| {
      assert front[..s] == sections[..s] && front[..s + 1] == sections[..s + 1];
      SectionsInOrder(front, max, overlap, s, w);
    } else {
      assert sections[..s] == front && sections[..s + 1] == sections;
    }
  }

  lemma LastSectionOnTop(sections: seq<Section>, max: nat, overlap: nat)
    requires ValidSizes(max, overlap) && sections != []
    ensures var front, last := sections[..|sections| - 1], sections[|sections| - 1];
            var before := Chunked(front, max, overlap);
            Chunked(sections, max, overlap)
            == before + Numbered(Windows(last.words, max, overlap), last.page, |before|)
  {
  }

  /** `FixedWindowChunker.chunk`. */
  method ChunkSections(sections: seq<Section>, max: nat, overlap: nat) returns (chunks: seq<Chunk>)
    requires ValidSizes(max, overlap)
    ensures chunks == Chunked(sections, max, overlap)
  {
    chunks := [];
    for s := 0 to |sections|
      invariant chunks == Chunked(sections[..s], max, overlap)
    {
      chunks := ChunkSection(sections[s], max, overlap, chunks);
      assert sections[..s + 1][..s] == sections[..s];
    }
    assert sections[..|sections|] == sections;
  }

  /** Python's `words[start : start + max]`. */
  function WindowAt(words: Text, start: nat, max: nat): Text
    requires start <= |words|
  {
    words[start..if start + max <= |words| then start + max else |words|]
  }

  lemma WindowsFrom(words: Text, start: nat, max: nat, overlap: nat)
    requires ValidSizes(max, overlap) && start < |words|
    ensures Windows(words[start..], max, overlap)
            == [WindowAt(words, start, max)]
               + if start + max >= |words| then [] else Windows(words[start + (max - overlap)..], max, overlap)
  {
    var rest := words[start..];
    if |rest| > max {
      assert rest[..max] == words[start..start + max];
      assert rest[max - overlap..] == words[start + (max - overlap)..];
    } else {
      assert rest == words[start..if start + max <= |words| then start + max else |words|];
    }
  }

  /** What the loop over a section has still to append. */
  function ChunksFrom(section: Section, start: nat, max: nat, overlap: nat, index: nat): seq<Chunk>
    requires ValidSizes(max, overlap)
  {
    if start >= |section.words| then []
       else Numbered(Windows(section.words[start..], max, overlap), section.page, index)
  }

  lemma OneChunkMore(section: Section, start: nat, max: nat, overlap: nat, before: seq<Chunk>)
    requires ValidSizes(max, overlap) && start < |section.words|
    ensures before + ChunksFrom(section, start, max, overlap, |before|)
            == before + [Chunk(|before|, WindowAt(section.words, start, max), section.page)]
               + if start + max >= |section.words| then []
                 else ChunksFrom(section, start + (max - overlap), max, overlap, |before| + 1)
  {
    WindowsFrom(section.words, start, max, overlap);
    var all := Windows(section.words[start..], max, overlap);
    assert all[1..] == if start + max >= |section.words| then []
           else Windows(section.words[start + (max - overlap)..], max, overlap);
    hide Windows;
    assert ChunksFrom(section, start, max, overlap, |before|)
           == [Chunk(|before|, all[0], section.page)] + Numbered(all[1..], section.page, |before| + 1);
    assert before + ChunksFrom(section, start, max, overlap, |before|)
           == before + [Chunk(|before|, all[0], section.page)] + Numbered(all[1..], section.page, |before| + 1);
  }

  method ChunkSection(section: Section, max: nat, overlap: nat, before: seq<Chunk>) returns (chunks: seq<Chunk>)
    requires ValidSizes(max, overlap)
    ensures chunks == before + Numbered(Windows(section.words, max, overlap), section.page, |before|)
  {
    chunks := before;
    var words, start := section.words, 0;
    assert words[0..] == words;
    ghost var all := before + ChunksFrom(section, 0, max, overlap, |before|);
    assert all == before + Numbered(Windows(words, max, overlap), section.page, |before|);
    while start < |words|
      invariant 0 <= start
      invariant chunks + ChunksFrom(section, start, max, overlap, |chunks|) == all
      decreases |words| - start
    {
      OneChunkMore(section, start, max, overlap, chunks);
      chunks := chunks + [Chunk(|chunks|, WindowAt(words, start, max), section.page)];
      if start + max >= |words| {
        return;
      }
      start := start + (max - overlap);
    }
    assert chunks + [] == all;
  }
}
