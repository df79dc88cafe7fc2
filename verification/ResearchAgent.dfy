/** The research agent of app/agents/nodes.py and app/agents/service.py. What the models reply, what a
    search finds, and how a reply's text is read are parameters: everything holds for any of them. */
module ResearchAgent {
  import opened Wrappers
  import opened StateGraph

  datatype Hit = Hit(doc: string, index: nat, text: string, vectorScore: real, rerankScore: Option<real>)

  datatype Found = Hits(hits: seq<Hit>) | SearchFailed(what: string)

  /** A model's answer; one of FATAL; or any other exception. */
  datatype Reply = Answered(text: string, promptTokens: nat, completionTokens: nat, cost: real)
                 | Fatal(what: string)
                 | Broken(what: string)

  /** Everything the nodes depend on: the reply to each call in turn, the passages for each query, the
      lines of a plan, and the critic's and the reviser's words. */
  datatype World = World(chat: nat -> Reply, search: string -> Found, queriesOf: string -> seq<string>,
                         approves: string -> bool, issuesOf: string -> seq<string>, notAnAnswer: string -> bool)

  /** `ResearchState`; `asked` counts the calls made so far, answered or not. */
  datatype Research = Research(question: string, topK: nat, maxSearches: nat, maxRevisions: nat,
                               searches: seq<string>, passages: seq<Hit>, draft: string, critique: Option<string>,
                               issues: seq<string>, revisions: nat, llmCalls: nat, promptTokens: nat,
                               completionTokens: nat, cost: real, asked: nat)

  datatype Request = Request(question: string, topK: nat, maxSearches: nat, maxRevisions: nat)

  const NO_CONTEXT_ANSWER := "I couldn't find anything relevant to that question in your documents."

  function Fresh(r: Request): Research {
    Research(r.question, r.topK, r.maxSearches, r.maxRevisions, [], [], "", None, [], 0, 0, 0, 0, 0.0, 0)
  }

  /** `_ask`: only an answered call counts. */
  function Charged(s: Research, reply: Reply): Research {
    var s' := s.(asked := s.asked + 1);
    if reply.Answered? then
      s'.(llmCalls := s.llmCalls + 1, promptTokens := s.promptTokens + reply.promptTokens,
          completionTokens := s.completionTokens + reply.completionTokens, cost := s.cost + reply.cost)
    else s'
  }

  // ------------------------------------------------------------------ the plan

  /** `dict.fromkeys`: the first of each. */
  function Distinct(lines: seq<string>): seq<string> {
    if lines == [] then []
    else
      var front := Distinct(lines[..|lines| - 1]);
      if lines[|lines| - 1] in front then front else front + [lines[|lines| - 1]]
  }

  function NonEmpty(lines: seq<string>): seq<string> {
    if lines == [] then [] else (if lines[0] == "" then [] else [lines[0]]) + NonEmpty(lines[1..])
  }

  function Queries(lines: seq<string>, question: string, max: nat): seq<string> {
    var queries := NonEmpty(Distinct(lines));
    var first := if |queries| <= max then queries else queries[..max];
    if first == [] then [question] else first
  }

  ghost predicate AllDifferent(lines: seq<string>) {
    forall i, j :: 0 <= i < j < |lines| ==> lines[i] != lines[j]
  }

  /** Line `i` is not empty, and the first to say what it says. */
  ghost predicate SaysNew(lines: seq<string>, i: nat) {
    i < |lines| && lines[i] != "" && lines[i] !in lines[..i]
  }

  ghost predicate Ascending(at: seq<nat>) {
    forall i, j :: 0 <= i < j < |at| ==> at[i] < at[j]
  }

  /** `at` is where `queries` says each line for the first time, in order. */
  ghost predicate FirstsAt(lines: seq<string>, queries: seq<string>, at: seq<nat>) {
    && |at| == |queries| && Ascending(at)
    && (forall i :: 0 <= i < |at| ==> SaysNew(lines, at[i]) && queries[i] == lines[at[i]])
    && forall n :: SaysNew(lines, n) ==> n in at
  }

  /** The lines that are not empty, each where it is said for the first time. */
  lemma {:induction false} FirstsOf(lines: seq<string>) returns (at: seq<nat>)
    ensures FirstsAt(lines, NonEmpty(Distinct(lines)), at)
    ensures forall l :: l in Distinct(lines) <==> l in lines
  {
    at := [];
    if lines != [] {
      var last := |lines| - 1;
      var front, l := lines[..last], lines[last];
      assert lines == front + [l];
      at := FirstsOf(front);
      NonEmptyMore(Distinct(front), l);
      FirstsStay(lines, NonEmpty(Distinct(front)), at);
      if l !in front && l != "" {
        OneFirstMore(lines, NonEmpty(Distinct(front)), at);
        at := at + [last];
      }
    }
  }

  lemma {:induction false} NonEmptyMore(lines: seq<string>, l: string)
    ensures NonEmpty(lines + [l]) == NonEmpty(lines) + if l == "" then [] else [l]
  {
    if lines == [] {
      assert [] + [l] == [l] && [l][1..] == [];
    } else {
      assert (lines + [l])[0] == lines[0] && (lines + [l])[1..] == lines[1..] + [l];
      NonEmptyMore(lines[1..], l);
    }
  }

  lemma SaysNewInFront(lines: seq<string>, i: nat)
    requires lines != [] && i < |lines| - 1
    ensures SaysNew(lines[..|lines| - 1], i) <==> SaysNew(lines, i)
  {
    assert lines[..|lines| - 1][..i] == lines[..i];
  }

  /** The places stay while nothing new is said. */
  lemma FirstsStay(lines: seq<string>, queries: seq<string>, at: seq<nat>)
    requires lines != [] && FirstsAt(lines[..|lines| - 1], queries, at)
    ensures !SaysNew(lines, |lines| - 1) ==> FirstsAt(lines, queries, at)
    ensures forall i :: 0 <= i < |at| ==> at[i] < |lines| - 1
  {
    forall i: nat | i < |lines| - 1
      ensures SaysNew(lines[..|lines| - 1], i) <==> SaysNew(lines, i)
    {
      SaysNewInFront(lines, i);
    }
  }

  lemma OneFirstMore(lines: seq<string>, queries: seq<string>, at: seq<nat>)
    requires lines != [] && FirstsAt(lines[..|lines| - 1], queries, at) && SaysNew(lines, |lines| - 1)
    ensures FirstsAt(lines, queries + [lines[|lines| - 1]], at + [|lines| - 1])
  {
    FirstsStay(lines, queries, at);
    forall i: nat | i < |lines| - 1
      ensures SaysNew(lines[..|lines| - 1], i) <==> SaysNew(lines, i)
    {
      SaysNewInFront(lines, i);
    }
    var at' := at + [|lines| - 1];
    assert forall i :: 0 <= i < |at| ==> at'[i] == at[i];
    forall n | SaysNew(lines, n)
      ensures n in at'
    {
      assert n == |lines| - 1 || n in at;
    }
  }

  /** `q` are different lines that are not empty, each where it is said first, in order, and at most `max` of
      them; one that is said nowhere before is left out only if as many come before it. */
  ghost predicate TakesFirsts(lines: seq<string>, q: seq<string>, at: seq<nat>, max: nat) {
    && |at| == |q| <= max && AllDifferent(q) && Ascending(at)
    && (forall i :: 0 <= i < |at| ==> SaysNew(lines, at[i]) && q[i] == lines[at[i]])
    && forall n :: SaysNew(lines, n) ==> n in at || (|q| == max && forall m <- at :: m < n)
  }

  lemma FirstsCut(lines: seq<string>, queries: seq<string>, all: seq<nat>, n: nat, max: nat)
    requires FirstsAt(lines, queries, all) && AllDifferent(queries)
    requires n <= |all| && (if |all| <= max then n == |all| else n == max)
    ensures TakesFirsts(lines, queries[..n], all[..n], max)
  {
    var at := all[..n];
    hide SaysNew;
    forall k | SaysNew(lines, k)
      ensures k in at || (|at| == max && forall m <- at :: m < k)
    {
      var i :| 0 <= i < |all| && all[i] == k;
      assert i < n ==> at[i] == k;
    }
  }

  /** What is searched for, exactly: the question itself if the plan has no line with something in it, or
      nothing may be searched, and otherwise the first `max` different lines of the plan. */
  lemma QueriesAreUsable(lines: seq<string>, question: string, max: nat) returns (at: seq<nat>)
    ensures var q := Queries(lines, question, max);
            if max == 0 || forall l <- lines :: l == "" then q == [question]
            else q != [] && TakesFirsts(lines, q, at, max)
  {
    var queries := NonEmpty(Distinct(lines));
    var all := FirstsOf(lines);
    var n := if |all| <= max then |all| else max;
    at := all[..n];
    SomethingNew(lines);
    FirstsDiffer(lines, queries, all);
    FirstsCut(lines, queries, all, n, max);
    hide Distinct, NonEmpty, TakesFirsts;
    if all != [] {
      assert SaysNew(lines, all[0]) && lines[all[0]] in lines;
    }
  }

  lemma FirstsDiffer(lines: seq<string>, queries: seq<string>, at: seq<nat>)
    requires FirstsAt(lines, queries, at)
    ensures AllDifferent(queries)
  {
    forall i, j | 0 <= i < j < |queries|
      ensures queries[i] != queries[j]
    {
      assert lines[at[i]] in lines[..at[j]];
    }
  }

  lemma {:induction false} SomethingNew(lines: seq<string>)
    ensures (exists l <- lines :: l != "") ==> exists n :: SaysNew(lines, n)
  {
    if lines != [] {
      var last := |lines| - 1;
      assert lines == lines[..last] + [lines[last]];
      SomethingNew(lines[..last]);
      if n :| SaysNew(lines[..last], n) {
        SaysNewInFront(lines, n);
      } else if l :| l in lines && l != "" {
        assert SaysNew(lines, last);
      }
    }
  }

  // ------------------------------------------------------------------ merging the searches

  function Score(h: Hit): real {
    if h.rerankScore.Some? then h.rerankScore.value else h.vectorScore
  }

  function KeyOf(h: Hit): (string, nat) {
    (h.doc, h.index)
  }

  /** Where a passage's key is in `best`. */
  function Find(best: seq<Hit>, key: (string, nat)): (i: nat)
    ensures i <= |best| && (i < |best| ==> KeyOf(best[i]) == key)
    ensures forall j :: 0 <= j < i ==> KeyOf(best[j]) != key
    decreases |best|
  {
    if best == [] || KeyOf(best[0]) == key then 0 else 1 + Find(best[1..], key)
  }

  /** The dictionary `best`, in insertion order, after one more hit. */
  function WithHit(best: seq<Hit>, h: Hit): seq<Hit> {
    var i := Find(best, KeyOf(h));
    if i == |best| then best + [h] else if Score(h) > Score(best[i]) then best[i := h] else best
  }

  function Merged(hits: seq<Hit>): seq<Hit> {
    if hits == [] then [] else WithHit(Merged(hits[..|hits| - 1]), hits[|hits| - 1])
  }

  /** `sorted(..., reverse=True)` keeps equals in order. */
  function Placed(sorted: seq<Hit>, h: Hit): (r: seq<Hit>)
    decreases |sorted|
  {
    if sorted == [] || Score(sorted[|sorted| - 1]) >= Score(h) then sorted + [h]
    else Placed(sorted[..|sorted| - 1], h) + [sorted[|sorted| - 1]]
  }

  function Ranked(hits: seq<Hit>): seq<Hit> {
    if hits == [] then [] else Placed(Ranked(hits[..|hits| - 1]), hits[|hits| - 1])
  }

  function First(ranked: seq<Hit>, k: nat): seq<Hit> {
    if |ranked| <= k then ranked else ranked[..k]
  }

  function Top(hits: seq<Hit>, k: nat): seq<Hit> {
    First(Ranked(Merged(hits)), k)
  }

  ghost predicate Descending(hits: seq<Hit>) {
    forall i, j :: 0 <= i < j < |hits| ==> Score(hits[i]) >= Score(hits[j])
  }

  ghost predicate DistinctKeys(hits: seq<Hit>) {
    forall i, j :: 0 <= i < j < |hits| ==> KeyOf(hits[i]) != KeyOf(hits[j])
  }

  /** One of `hits` is of the same passage and scores no less. */
  ghost predicate Covered(hits: seq<Hit>, h: Hit) {
    exists i | 0 <= i < |hits| :: Covers(hits[i], h)
  }

  predicate Covers(t: Hit, h: Hit) {
    KeyOf(t) == KeyOf(h) && Score(t) >= Score(h)
  }

  /** `best` has one hit of each passage found, and it is one of the passage's best. */
  ghost predicate BestOf(best: seq<Hit>, hits: seq<Hit>) {
    DistinctKeys(best) && (forall b <- best :: b in hits) && (forall h <- hits :: Covered(best, h))
  }

  lemma {:induction false} MergedIsBest(hits: seq<Hit>)
    ensures BestOf(Merged(hits), hits)
  {
    if hits != [] {
      var last := |hits| - 1;
      MergedIsBest(hits[..last]);
      WithHitIsBest(Merged(hits[..last]), hits[..last], hits[last]);
      assert hits == hits[..last] + [hits[last]];
    }
  }

  lemma WithHitIsBest(best: seq<Hit>, hits: seq<Hit>, h: Hit)
    requires BestOf(best, hits)
    ensures BestOf(WithHit(best, h), hits + [h])
  {
    hide Covered, Score;
    assert DistinctKeys(WithHit(best, h));
    assert forall b <- WithHit(best, h) :: b == h || b in best;
    forall g | g in hits + [h]
      ensures Covered(WithHit(best, h), g)
    {
      WithHitCovers(best, h, g);
    }
  }

  lemma WithHitCovers(best: seq<Hit>, h: Hit, g: Hit)
    requires g == h || Covered(best, g)
    ensures Covered(WithHit(best, h), g)
  {
    var i, best' := Find(best, KeyOf(h)), WithHit(best, h);
    if g == h {
      assert Covers(best'[i], h);
    } else {
      var k :| 0 <= k < |best| && Covers(best[k], g);
      assert Covers(best'[k], g);
    }
  }

  lemma DescendingWith(hits: seq<Hit>, h: Hit)
    requires Descending(hits) && forall x <- hits :: Score(x) >= Score(h)
    ensures Descending(hits + [h])
  {
  }

  lemma SameMembers(a: seq<Hit>, b: seq<Hit>)
    requires multiset(a) == multiset(b)
    ensures forall x :: x in a <==> x in b
  {
    assert forall x :: x in a <==> x in multiset(a);
    assert forall x :: x in b <==> x in multiset(b);
  }

  lemma {:induction false} PlacedStays(sorted: seq<Hit>, h: Hit)
    requires Descending(sorted)
    ensures Descending(Placed(sorted, h)) && multiset(Placed(sorted, h)) == multiset(sorted + [h])
    decreases |sorted|
  {
    if sorted == [] || Score(sorted[|sorted| - 1]) >= Score(h) {
      DescendingWith(sorted, h);
    } else {
      var front, last := sorted[..|sorted| - 1], sorted[|sorted| - 1];
      PlacedStays(front, h);
      SameMembers(Placed(front, h), front + [h]);
      DescendingWith(Placed(front, h), last);
      hide Descending, Placed;
      assert sorted == front + [last];
      assert multiset(Placed(front, h) + [last]) == multiset(front + [h]) + multiset{last};
    }
  }

  lemma {:induction false} RankedIsSorted(hits: seq<Hit>)
    ensures Descending(Ranked(hits)) && multiset(Ranked(hits)) == multiset(hits)
  {
    if hits != [] {
      var last := |hits| - 1;
      RankedIsSorted(hits[..last]);
      PlacedStays(Ranked(hits[..last]), hits[last]);
      hide Descending, Placed;
      assert hits == hits[..last] + [hits[last]];
    }
  }

  /** The passages of a run: best first, each one found, and whatever was found is covered by one of them
      or scores no better than any of them; there are fewer than `k` only if nothing is left out. */
  lemma TopIsBest(hits: seq<Hit>, k: nat)
    ensures var top := Top(hits, k);
            && Descending(top) && |top| <= k && (forall t <- top :: t in hits)
            && forall h <- hits :: Covered(top, h) || (|top| == k && forall t <- top :: Score(t) >= Score(h))
  {
    var best := Merged(hits);
    MergedIsBest(hits);
    RankedIsSorted(best);
    SameMembers(Ranked(best), best);
    hide Score, Merged, Ranked, Covers, Covered;
    FirstOfRanked(Ranked(best), k);
    forall h | h in hits
      ensures Covered(Top(hits, k), h) || (|Top(hits, k)| == k && forall t <- Top(hits, k) :: Score(t) >= Score(h))
    {
      var x := Covering(best, h);
      FirstAreBest(Ranked(best), k, x, h);
    }
  }

  lemma FirstOfRanked(ranked: seq<Hit>, k: nat)
    requires Descending(ranked)
    ensures Descending(First(ranked, k)) && |First(ranked, k)| <= k
    ensures forall t <- First(ranked, k) :: t in ranked
  {
    hide Score;
  }

  lemma Covering(best: seq<Hit>, h: Hit) returns (x: Hit)
    requires Covered(best, h)
    ensures x in best && Covers(x, h)
  {
    var i :| 0 <= i < |best| && Covers(best[i], h);
    x := best[i];
  }

  lemma FirstAreBest(ranked: seq<Hit>, k: nat, x: Hit, h: Hit)
    requires Descending(ranked) && x in ranked && Covers(x, h)
    ensures Covered(First(ranked, k), h)
            || (|First(ranked, k)| == k && forall t <- First(ranked, k) :: Score(t) >= Score(h))
  {
    var j :| 0 <= j < |ranked| && ranked[j] == x;
    if j < |First(ranked, k)| {
      assert Covers(First(ranked, k)[j], h);
    }
  }

  /** The better of two hits is the one reranked higher; what was not reranked goes by its vector score. */
  predicate NoWorse(t: Hit, h: Hit) {
    match (t.rerankScore, h.rerankScore)
    case (Some(a), Some(b)) => a >= b
    case (Some(a), None) => a >= h.vectorScore
    case (None, Some(b)) => t.vectorScore >= b
    case (None, None) => t.vectorScore >= h.vectorScore
  }

  /** The same chunk of the same document. */
  predicate SamePassage(t: Hit, h: Hit) {
    t.doc == h.doc && t.index == h.index
  }

  lemma {:induction false} OneOfEach(a: seq<Hit>, x: Hit)
    requires DistinctKeys(a)
    ensures multiset(a)[x] <= 1
  {
    if a != [] {
      var front, last := a[..|a| - 1], a[|a| - 1];
      assert a == front + [last];
      OneOfEach(front, x);
      assert last !in front;
    }
  }

  lemma RankedStaysDistinct(a: seq<Hit>, b: seq<Hit>)
    requires DistinctKeys(a) && multiset(a) == multiset(b)
    ensures DistinctKeys(b)
  {
    SameMembers(a, b);
    forall i, j | 0 <= i < j < |b|
      ensures KeyOf(b[i]) != KeyOf(b[j])
    {
      OneOfEach(a, b[j]);
      assert b == b[..j] + [b[j]] + b[j + 1..];
      assert b[i] in multiset(b[..j]);
      assert b[i] in a && b[j] in a;
    }
  }

  lemma ScoreDecides(t: Hit, h: Hit)
    ensures NoWorse(t, h) <==> Score(t) >= Score(h)
  {
  }

  /** One of the passages is of the hit's chunk, and no worse. */
  ghost predicate Represented(top: seq<Hit>, h: Hit) {
    exists t <- top :: SamePassage(t, h) && NoWorse(t, h)
  }

  lemma TopInOrder(hits: seq<Hit>, k: nat, i: nat, j: nat)
    requires i < j < |Top(hits, k)|
    ensures NoWorse(Top(hits, k)[i], Top(hits, k)[j]) && !SamePassage(Top(hits, k)[i], Top(hits, k)[j])
  {
    var ranked := Ranked(Merged(hits));
    MergedIsBest(hits);
    RankedIsSorted(Merged(hits));
    RankedStaysDistinct(Merged(hits), ranked);
    hide Merged, Ranked, Score, NoWorse;
    assert KeyOf(ranked[i]) != KeyOf(ranked[j]);
    ScoreDecides(ranked[i], ranked[j]);
  }

  lemma TopRepresents(hits: seq<Hit>, k: nat, h: Hit)
    requires h in hits
    ensures Represented(Top(hits, k), h) || (|Top(hits, k)| == k && forall t <- Top(hits, k) :: NoWorse(t, h))
  {
    var top := Top(hits, k);
    TopIsBest(hits, k);
    hide Top, Score, NoWorse, Descending;
    if Covered(top, h) {
      var i :| 0 <= i < |top| && Covers(top[i], h);
      ScoreDecides(top[i], h);
      assert SamePassage(top[i], h);
    } else {
      forall t | t in top
        ensures NoWorse(t, h)
      {
        ScoreDecides(t, h);
      }
    }
  }

  /** The passages of a run, told from the hits alone: one per chunk of a document, best first, each one found;
      whatever was found is of the same chunk as one of them and no better than it, or no better than any of
      them, and then there are `k`. */
  lemma PassagesAreBest(hits: seq<Hit>, k: nat)
    ensures var top := Top(hits, k);
            && |top| <= k && (forall t <- top :: t in hits)
            && (forall i, j :: 0 <= i < j < |top| ==> NoWorse(top[i], top[j]) && !SamePassage(top[i], top[j]))
            && forall h <- hits :: Represented(top, h) || (|top| == k && forall t <- top :: NoWorse(t, h))
  {
    hide *;
    TopIsBest(hits, k);
    forall i, j | 0 <= i < j < |Top(hits, k)|
      ensures NoWorse(Top(hits, k)[i], Top(hits, k)[j]) && !SamePassage(Top(hits, k)[i], Top(hits, k)[j])
    {
      TopInOrder(hits, k, i, j);
    }
    forall h | h in hits
      ensures Represented(Top(hits, k), h) || (|Top(hits, k)| == k && forall t <- Top(hits, k) :: NoWorse(t, h))
    {
      TopRepresents(hits, k, h);
    }
  }

  // ------------------------------------------------------------------ equals keep their order

  /** The passage of `t` was found first at `f`. */
  ghost predicate FirstFound(hits: seq<Hit>, t: Hit, f: nat) {
    f < |hits| && SamePassage(hits[f], t) && forall n :: 0 <= n < f ==> !SamePassage(hits[n], t)
  }

  /** Where in `a` the passage of `x` is. */
  function Place(a: seq<Hit>, x: Hit): nat {
    Find(a, KeyOf(x))
  }

  ghost predicate InTurn(a: seq<Hit>, x: Hit, y: Hit) {
    Score(x) == Score(y) ==> Place(a, x) < Place(a, y)
  }

  /** `sorted` has what is equal in the order of `a`. */
  ghost predicate InOrderOf(sorted: seq<Hit>, a: seq<Hit>) {
    && (forall i :: 0 <= i < |sorted| ==> Place(a, sorted[i]) < |a|)
    && forall i, j :: 0 <= i < j < |sorted| ==> InTurn(a, sorted[i], sorted[j])
  }

  lemma {:induction false} FindIs(a: seq<Hit>, key: (string, nat), i: nat)
    requires i < |a| && KeyOf(a[i]) == key && forall j :: 0 <= j < i ==> KeyOf(a[j]) != key
    ensures Find(a, key) == i
  {
  }

  lemma PlaceInFront(a: seq<Hit>, h: Hit, x: Hit)
    ensures Place(a, x) < |a| ==> Place(a + [h], x) == Place(a, x)
    ensures Place(a, x) == |a| && KeyOf(h) == KeyOf(x) ==> Place(a + [h], x) == |a|
  {
    var i := Place(a, x);
    if i < |a| || KeyOf(h) == KeyOf(x) {
      FindIs(a + [h], KeyOf(x), i);
    }
  }

  lemma {:induction false} PlacedAt(sorted: seq<Hit>, h: Hit) returns (p: nat)
    requires Descending(sorted)
    ensures p <= |sorted| && Placed(sorted, h) == sorted[..p] + [h] + sorted[p..]
    ensures forall i :: p <= i < |sorted| ==> Score(sorted[i]) < Score(h)
    decreases |sorted|
  {
    p := |sorted|;
    if sorted != [] && Score(sorted[|sorted| - 1]) < Score(h) {
      var front, last := sorted[..|sorted| - 1], sorted[|sorted| - 1];
      p := PlacedAt(front, h);
      assert front[..p] == sorted[..p] && front[p..] + [last] == sorted[p..];
      assert sorted[..p] + [h] + front[p..] + [last] == sorted[..p] + [h] + (front[p..] + [last]);
    } else {
      assert sorted[..p] + [h] + sorted[p..] == sorted + [h];
    }
  }

  lemma PlacedInOrder(sorted: seq<Hit>, a: seq<Hit>, h: Hit)
    requires Descending(sorted) && InOrderOf(sorted, a) && Place(a, h) == |a|
    ensures InOrderOf(Placed(sorted, h), a + [h])
  {
    hide Placed, Score, Place, InTurn;
    var p := PlacedAt(sorted, h);
    PlaceInFront(a, h, h);
    forall i | 0 <= i < |sorted|
      ensures Place(a + [h], sorted[i]) == Place(a, sorted[i]) < |a|
    {
      PlaceInFront(a, h, sorted[i]);
    }
    var all := Placed(sorted, h);
    assert forall i :: 0 <= i < |all| ==> all[i] == if i < p then sorted[i] else if i == p then h else sorted[i - 1];
    forall i, j | 0 <= i < j < |all|
      ensures InTurn(a + [h], all[i], all[j])
    {
      var i', j' := if i < p then i else i - 1, if j < p then j else j - 1;
      if i != p && j != p {
        assert InTurn(a, sorted[i'], sorted[j']);
      }
      TurnsKept(a, a + [h], all[i], all[j]);
    }
  }

  lemma TurnsKept(a: seq<Hit>, a': seq<Hit>, x: Hit, y: Hit)
    requires || (InTurn(a, x, y) && Place(a', x) == Place(a, x) && Place(a', y) == Place(a, y))
             || Place(a', x) < Place(a', y) || Score(y) < Score(x)
    ensures InTurn(a', x, y)
  {
  }

  lemma {:induction false} RankedInOrder(a: seq<Hit>)
    requires DistinctKeys(a)
    ensures InOrderOf(Ranked(a), a)
  {
    if a != [] {
      var front, last := a[..|a| - 1], a[|a| - 1];
      RankedInOrder(front);
      RankedIsSorted(front);
      assert a == front + [last];
      assert Place(front, last) == |front|;
      hide Ranked, InOrderOf;
      PlacedInOrder(Ranked(front), front, last);
      RankedLast(front, last);
    }
  }

  lemma RankedLast(a: seq<Hit>, h: Hit)
    ensures Ranked(a + [h]) == Placed(Ranked(a), h)
  {
    assert (a + [h])[..|a|] == a;
  }

  /** The merged hits come in the order their passages were first found. */
  ghost predicate InOrderFound(best: seq<Hit>, hits: seq<Hit>) {
    && (forall i :: 0 <= i < |best| ==> Place(hits, best[i]) < |hits|)
    && forall i, j :: 0 <= i < j < |best| ==> Place(hits, best[i]) < Place(hits, best[j])
  }

  lemma WithHitInOrder(best: seq<Hit>, hits: seq<Hit>, h: Hit)
    requires BestOf(best, hits) && InOrderFound(best, hits)
    ensures InOrderFound(WithHit(best, h), hits + [h])
  {
    hide BestOf, Find, Score, Place;
    var i, best' := Find(best, KeyOf(h)), WithHit(best, h);
    NotFoundYet(best, hits, h);
    PlaceInFront(hits, h, h);
    forall j | 0 <= j < |best|
      ensures Place(hits + [h], best[j]) == Place(hits, best[j])
    {
      PlaceInFront(hits, h, best[j]);
    }
    if i < |best| {
      SamePlace(hits + [h], best[i], h);
    }
    assert forall j :: 0 <= j < |best| ==> Place(hits + [h], best'[j]) == Place(hits, best[j]);
  }

  lemma SamePlace(a: seq<Hit>, x: Hit, y: Hit)
    requires KeyOf(x) == KeyOf(y)
    ensures Place(a, x) == Place(a, y)
  {
  }

  lemma NotFoundYet(best: seq<Hit>, hits: seq<Hit>, h: Hit)
    requires BestOf(best, hits)
    ensures Find(best, KeyOf(h)) == |best| ==> Place(hits, h) == |hits|
  {
    if Find(best, KeyOf(h)) == |best| {
      forall n | 0 <= n < |hits|
        ensures KeyOf(hits[n]) != KeyOf(h)
      {
        assert hits[n] in hits;
        var k :| 0 <= k < |best| && Covers(best[k], hits[n]);
      }
    }
  }

  lemma {:induction false} MergedInOrder(hits: seq<Hit>)
    ensures InOrderFound(Merged(hits), hits)
  {
    if hits != [] {
      var front, last := hits[..|hits| - 1], hits[|hits| - 1];
      MergedInOrder(front);
      MergedIsBest(front);
      assert hits == front + [last];
      hide InOrderFound, BestOf, WithHit;
      WithHitInOrder(Merged(front), front, last);
    }
  }

  /** Of all hits of its chunk it is the first that none is better than: `f` is where. */
  ghost predicate EarliestBest(hits: seq<Hit>, b: Hit, f: nat) {
    && f < |hits| && hits[f] == b
    && (forall n :: 0 <= n < f && SamePassage(hits[n], b) ==> !NoWorse(hits[n], b))
    && forall n :: 0 <= n < |hits| && SamePassage(hits[n], b) ==> NoWorse(b, hits[n])
  }

  lemma {:induction false} MergedAreEarliest(hits: seq<Hit>, i: nat) returns (f: nat)
    requires i < |Merged(hits)|
    ensures EarliestBest(hits, Merged(hits)[i], f)
  {
    var front, last := hits[..|hits| - 1], hits[|hits| - 1];
    var before := Merged(front);
    MergedIsBest(front);
    assert hits == front + [last];
    f := |front|;
    if i < |before| && Merged(hits)[i] == before[i] {
      f := MergedAreEarliest(front, i);
    }
    hide Merged;
    EarliestGoesOn(before, front, last, i, f);
  }

  lemma EarliestGoesOn(before: seq<Hit>, front: seq<Hit>, last: Hit, i: nat, f: nat)
    requires BestOf(before, front) && i < |WithHit(before, last)|
    requires if i < |before| && WithHit(before, last)[i] == before[i] then EarliestBest(front, before[i], f)
             else f == |front|
    ensures EarliestBest(front + [last], WithHit(before, last)[i], f)
  {
    var hits, b := front + [last], WithHit(before, last)[i];
    forall n | 0 <= n < |front| && SamePassage(front[n], b)
      ensures f == |front| ==> !NoWorse(front[n], b)
      ensures NoWorse(b, front[n])
    {
      assert front[n] in front;
      var k :| 0 <= k < |before| && Covers(before[k], front[n]);
      assert k < i ==> KeyOf(before[k]) != KeyOf(b);
      ScoreDecides(b, front[n]);
      ScoreDecides(front[n], b);
    }
    ScoreDecides(b, last);
  }

  /** A passage is, of the best hits of its chunk, the one found first. */
  lemma PassageIsEarliest(hits: seq<Hit>, k: nat, t: Hit) returns (f: nat)
    requires t in Top(hits, k)
    ensures EarliestBest(hits, t, f)
  {
    hide Merged, Ranked, EarliestBest;
    RankedIsSorted(Merged(hits));
    SameMembers(Ranked(Merged(hits)), Merged(hits));
    assert t in Ranked(Merged(hits));
    assert t in Merged(hits);
    var i :| 0 <= i < |Merged(hits)| && Merged(hits)[i] == t;
    f := MergedAreEarliest(hits, i);
  }

  /** Of two passages that are as good as each other the one found first comes first. */
  lemma EqualsInOrderFound(hits: seq<Hit>, k: nat, i: nat, j: nat, f: nat, g: nat)
    requires i < j < |Top(hits, k)| && NoWorse(Top(hits, k)[j], Top(hits, k)[i])
    requires FirstFound(hits, Top(hits, k)[i], f) && FirstFound(hits, Top(hits, k)[j], g)
    ensures f < g
  {
    var merged, ranked := Merged(hits), Ranked(Merged(hits));
    MergedIsBest(hits);
    MergedInOrder(hits);
    RankedInOrder(merged);
    RankedIsSorted(merged);
    FindIs(hits, KeyOf(ranked[i]), f);
    FindIs(hits, KeyOf(ranked[j]), g);
    ScoreDecides(ranked[j], ranked[i]);
    assert Score(ranked[i]) == Score(ranked[j]) && InTurn(merged, ranked[i], ranked[j]);
    var a, b := Place(merged, ranked[i]), Place(merged, ranked[j]);
    assert Place(hits, merged[a]) < Place(hits, merged[b]);
    SamePlace(hits, merged[a], ranked[i]);
    SamePlace(hits, merged[b], ranked[j]);
  }

  /** The hits of all the searches, in order, or the first failure. */
  function Searched(w: World, searches: seq<string>): Found {
    if searches == [] then Hits([])
    else
      match Searched(w, searches[..|searches| - 1])
      case SearchFailed(what) => SearchFailed(what)
      case Hits(before) =>
        match w.search(searches[|searches| - 1])
        case SearchFailed(what) => SearchFailed(what)
        case Hits(hits) => Hits(before + hits)
  }

  // ------------------------------------------------------------------ the five nodes

  function Plan(w: World, s: Research): Decision<Research> {
    var reply := w.chat(s.asked);
    var s' := Charged(s, reply);
    if reply.Fatal? then Raised(s', reply.what)
    else
      var lines := if reply.Answered? then w.queriesOf(reply.text) else [];
      Moved(s'.(searches := Queries(lines, s.question, s.maxSearches)), "retrieve")
  }

  function Retrieve(w: World, s: Research): Decision<Research> {
    match Searched(w, s.searches)
    case SearchFailed(what) => Raised(s, what)
    case Hits(hits) =>
      var passages := Top(hits, s.topK);
      if passages == [] then Moved(s.(passages := passages, draft := NO_CONTEXT_ANSWER), END)
      else Moved(s.(passages := passages), "draft")
  }

  function Draft(w: World, s: Research): Decision<Research> {
    var reply := w.chat(s.asked);
    var s' := Charged(s, reply);
    if reply.Answered? then Moved(s'.(draft := reply.text), "critique") else Raised(s', reply.what)
  }

  function Critique(w: World, s: Research): Decision<Research> {
    if s.revisions >= s.maxRevisions then Moved(s, END)
    else
      var reply := w.chat(s.asked);
      var s' := Charged(s, reply);
      match reply
      case Fatal(what) => Raised(s', what)
      case Broken(_) => Moved(s', END)
      case Answered(text, _, _, _) =>
        var read := s'.(critique := Some(text), issues := w.issuesOf(text));
        if w.approves(text) then Moved(read.(issues := []), END)
        else if w.issuesOf(text) == [] then Moved(read, END)
        else Moved(read, "revise")
  }

  function Revise(w: World, s: Research): Decision<Research> {
    var reply := w.chat(s.asked);
    var s' := Charged(s, reply);
    if !reply.Answered? then Raised(s', reply.what)
    else
      Moved(s'.(revisions := s.revisions + 1, draft := if w.notAnAnswer(reply.text) then s.draft else reply.text),
            "critique")
  }

  function Behave(w: World, node: string, s: Research): Decision<Research> {
    if node == "plan" then Plan(w, s)
    else if node == "retrieve" then Retrieve(w, s)
    else if node == "draft" then Draft(w, s)
    else if node == "critique" then Critique(w, s)
    else Revise(w, s)
  }

  function Nodes(w: World): Behaviour<Research> {
    (node: string, s: Research) => Behave(w, node, s)
  }

  /** `build_graph`. */
  function ResearchGraph(maxSteps: nat): Graph {
    Graph({"plan", "retrieve", "draft", "critique", "revise"},
          map["plan" := ["retrieve"], "retrieve" := ["draft", END], "draft" := ["critique"],
              "critique" := ["revise", END], "revise" := ["critique"]],
          "plan", maxSteps)
  }

  lemma ResearchGraphIsValid(maxSteps: nat)
    ensures Valid(ResearchGraph(maxSteps))
  {
    var g := ResearchGraph(maxSteps);
    forall node | node in g.edges
      ensures TargetsOk(g, node)
    {
    }
  }

  // ------------------------------------------------------------------ the path of a run

  const LEAD := [Step("plan", "retrieve"), Step("retrieve", "draft"), Step("draft", "critique")]

  function Rounds(r: nat): (steps: seq<Step>)
    ensures |steps| == 2 * r
  {
    if r == 0 then [] else Rounds(r - 1) + [Step("critique", "revise"), Step("revise", "critique")]
  }

  /** Where a run with at most `m` revisions can be, how it got there, and how many model calls it has made;
      those that were answered are counted. */
  ghost predicate On(node: string, steps: seq<Step>, s: Research, m: nat) {
    && s.maxRevisions == m && s.revisions <= m && s.llmCalls <= s.asked
    && if node == "plan" then steps == [] && s.revisions == 0 && s.asked == 0
       else if node == "retrieve" then steps == LEAD[..1] && s.revisions == 0 && s.asked == 1
       else if node == "draft" then steps == LEAD[..2] && s.revisions == 0 && s.asked == 1 && s.passages != []
       else if node == "critique" then
         steps == LEAD + Rounds(s.revisions) && s.asked == 2 + 2 * s.revisions && s.passages != []
       else if node == "revise" then
         && steps == LEAD + Rounds(s.revisions) + [Step("critique", "revise")]
         && s.revisions < m && s.asked == 3 + 2 * s.revisions && s.passages != []
       else node == END && AtEnd(steps, s, m)
  }

  ghost predicate AtEnd(steps: seq<Step>, s: Research, m: nat) {
    && s.asked <= 2 + 2 * m
    && if s.passages == [] then
         steps == LEAD[..1] + [Step("retrieve", END)] && s.draft == NO_CONTEXT_ANSWER && s.asked == 1
       else
         && steps == LEAD + Rounds(s.revisions) + [Step("critique", END)]
         && s.asked == 2 + 2 * s.revisions + if s.revisions < m then 1 else 0
  }

  ghost predicate Keeps(node: string, steps: seq<Step>, s: Research, d: Decision<Research>, m: nat) {
    match d
    case Moved(s', next) =>
      && node in ResearchGraph(0).edges && next in ResearchGraph(0).edges[node]
      && On(next, steps + [Step(node, next)], s', m)
    case Raised(s', _) => s'.llmCalls <= s'.asked <= 2 + 2 * m
  }

  lemma PlanKeepsPath(w: World, steps: seq<Step>, s: Research, m: nat)
    requires On("plan", steps, s, m)
    ensures Keeps("plan", steps, s, Plan(w, s), m)
  {
    hide Queries;
    assert [] + [Step("plan", "retrieve")] == LEAD[..1];
  }

  lemma RetrieveKeepsPath(w: World, steps: seq<Step>, s: Research, m: nat)
    requires On("retrieve", steps, s, m)
    ensures Keeps("retrieve", steps, s, Retrieve(w, s), m)
  {
    hide Top, Searched;
    assert LEAD[..1] + [Step("retrieve", "draft")] == LEAD[..2];
  }

  lemma DraftKeepsPath(w: World, steps: seq<Step>, s: Research, m: nat)
    requires On("draft", steps, s, m)
    ensures Keeps("draft", steps, s, Draft(w, s), m)
  {
    assert LEAD[..2] + [Step("draft", "critique")] == LEAD + Rounds(0);
  }

  lemma CritiqueKeepsPath(w: World, steps: seq<Step>, s: Research, m: nat)
    requires On("critique", steps, s, m)
    ensures Keeps("critique", steps, s, Critique(w, s), m)
  {
    hide Rounds;
  }

  lemma ReviseKeepsPath(w: World, steps: seq<Step>, s: Research, m: nat)
    requires On("revise", steps, s, m)
    ensures Keeps("revise", steps, s, Revise(w, s), m)
  {
    var r := s.revisions;
    assert Rounds(r + 1) == Rounds(r) + [Step("critique", "revise"), Step("revise", "critique")];
    hide Rounds;
    assert LEAD + Rounds(r) + [Step("critique", "revise")] + [Step("revise", "critique")] == LEAD + Rounds(r + 1);
  }

  lemma NodeKeepsPath(w: World, node: string, steps: seq<Step>, s: Research, m: nat)
    requires On(node, steps, s, m) && node != END
    ensures Keeps(node, steps, s, Nodes(w)(node, s), m)
  {
    assert node == "plan" || node == "retrieve" || node == "draft" || node == "critique" || node == "revise";
    hide On, Keeps, Plan, Retrieve, Draft, Critique, Revise;
    if node == "plan" {
      PlanKeepsPath(w, steps, s, m);
    } else if node == "retrieve" {
      RetrieveKeepsPath(w, steps, s, m);
    } else if node == "draft" {
      DraftKeepsPath(w, steps, s, m);
    } else if node == "critique" {
      CritiqueKeepsPath(w, steps, s, m);
    } else {
      ReviseKeepsPath(w, steps, s, m);
    }
  }

  lemma PathLength(node: string, steps: seq<Step>, s: Research, m: nat)
    requires On(node, steps, s, m)
    ensures |steps| <= (if node == END then 4 else 3) + 2 * m && s.llmCalls <= s.asked <= 2 + 2 * m
  {
  }

  lemma {:induction false} RunFollowsPath(w: World, maxSteps: nat, node: string, steps: seq<Step>, s: Research, m: nat)
    requires On(node, steps, s, m) && |steps| <= maxSteps
    ensures var run := RunFrom(ResearchGraph(maxSteps), Nodes(w), node, s, steps);
            && (match run.outcome
                case Settled => On(END, run.steps, run.state, m)
                case BudgetSpent => maxSteps < 4 + 2 * m && |run.steps| == maxSteps
                case NodeRaised(_, _) => true
                case ForbiddenMove(_, _) => false)
            && |run.steps| <= 4 + 2 * m && run.state.llmCalls <= run.state.asked <= 2 + 2 * m
    decreases maxSteps - |steps|
  {
    PathLength(node, steps, s, m);
    if node != END && |steps| < maxSteps {
      NodeKeepsPath(w, node, steps, s, m);
      hide On, Nodes;
      match Nodes(w)(node, s)
      case Moved(s', next) => RunFollowsPath(w, maxSteps, next, steps + [Step(node, next)], s', m);
      case Raised(_, _) =>
    }
  }

  /** Whatever the models reply and the searches find: a run that ends normally took plan, retrieve and
      nothing more, because nothing matched, or plan, retrieve, draft, critique and then revise and critique
      once per revision; it takes at most 4 + 2m steps and makes at most 2 + 2m model calls, answered or
      not, never asks for a transition that is not declared, and outlives its budget only if that is less
      than 4 + 2m. */
  lemma AgentRunIsBounded(w: World, request: Request, maxSteps: nat)
    ensures var m := request.maxRevisions;
            var run := RunFrom(ResearchGraph(maxSteps), Nodes(w), "plan", Fresh(request), []);
            && (run.outcome.Settled? ==> run.state.revisions <= m && AtEnd(run.steps, run.state, m))
            && !run.outcome.ForbiddenMove?
            && (run.outcome.BudgetSpent? ==> maxSteps < 4 + 2 * m)
            && |run.steps| <= 4 + 2 * m && run.state.llmCalls <= run.state.asked <= 2 + 2 * m
  {
    RunFollowsPath(w, maxSteps, "plan", [], Fresh(request), request.maxRevisions);
  }

  // ------------------------------------------------------------------ what a run's answer comes from

  /** The searches are the plan's, or what stands in for a plan that never came. */
  ghost predicate Planned(w: World, s: Research) {
    && !w.chat(0).Fatal?
    && s.searches == Queries(if w.chat(0).Answered? then w.queriesOf(w.chat(0).text) else [], s.question,
                             s.maxSearches)
  }

  /** No search failed, and the passages are the best of all they found. */
  ghost predicate FoundAll(w: World, s: Research) {
    Searched(w, s.searches).Hits? && s.passages == Top(Searched(w, s.searches).hits, s.topK)
  }

  /** The model's calls after the plan's: draft `r`, the drafting one and the revisions, is call 2r + 1, and the
      critique of it, if there is one, call 2r + 2. */
  function DraftReply(w: World, r: nat): Reply {
    w.chat(2 * r + 1)
  }

  function CritiqueReply(w: World, r: nat): Reply {
    w.chat(2 * r + 2)
  }

  /** The critique names something to fix. */
  predicate FindsFault(w: World, reply: Reply) {
    reply.Answered? && !w.approves(reply.text) && w.issuesOf(reply.text) != []
  }

  /** The draft is the reply `r`, and every revision after it was no answer. */
  ghost predicate LastAnswer(w: World, s: Research, r: nat) {
    && r <= s.revisions
    && DraftReply(w, r).Answered? && DraftReply(w, r).text == s.draft
    && (r > 0 ==> !w.notAnAnswer(s.draft))
    && forall q :: r < q <= s.revisions ==> NoAnswer(w, DraftReply(w, q))
  }

  predicate NoAnswer(w: World, reply: Reply) {
    reply.Answered? && w.notAnAnswer(reply.text)
  }

  /** The draft stands, and there was a fault to be found before each of the first `n` revisions. */
  ghost predicate Drafted(w: World, s: Research, n: nat) {
    && (exists r: nat :: LastAnswer(w, s, r))
    && forall q :: 0 <= q < n ==> FindsFault(w, CritiqueReply(w, q))
  }

  /** Why the review ended: no revision is left, or the critique approved, named nothing to fix, or never
      came. */
  ghost predicate ReviewOver(w: World, s: Research) {
    || s.revisions >= s.maxRevisions
    || var last := CritiqueReply(w, s.revisions);
       last.Broken? || (last.Answered? && !FindsFault(w, last))
  }

  ghost predicate Explained(w: World, node: string, s: Research) {
    if node == "plan" then s.asked == 0 && s.revisions == 0
    else if node == "retrieve" then s.asked == 1 && s.revisions == 0 && Planned(w, s)
    else if node == "draft" then s.asked == 1 && s.revisions == 0 && Planned(w, s) && FoundAll(w, s)
    else if node == "critique" then
      s.asked == 2 + 2 * s.revisions && Planned(w, s) && FoundAll(w, s) && Drafted(w, s, s.revisions)
    else if node == "revise" then
      s.asked == 3 + 2 * s.revisions && Planned(w, s) && FoundAll(w, s) && Drafted(w, s, s.revisions + 1)
    else
      && Planned(w, s) && FoundAll(w, s)
      && (s.passages != [] ==> Drafted(w, s, s.revisions) && ReviewOver(w, s))
  }

  /** What made a node raise: a failed search; a call that must not fail, or that failed fatally. */
  ghost predicate RaisedFor(w: World, node: string, s: Research, what: string) {
    if node == "retrieve" then Searched(w, s.searches) == SearchFailed(what)
    else
      && s.asked > 0
      && var last := w.chat(s.asked - 1);
         last == Fatal(what) || (last == Broken(what) && (node == "draft" || node == "revise"))
  }

  ghost predicate KeepsExplained(w: World, node: string, d: Decision<Research>) {
    match d
    case Moved(s', next) => Explained(w, next, s')
    case Raised(s', what) => RaisedFor(w, node, s', what)
  }

  lemma FirstNodesExplain(w: World, s: Research)
    ensures Explained(w, "plan", s) ==> KeepsExplained(w, "plan", Plan(w, s))
    ensures Explained(w, "retrieve", s) ==> KeepsExplained(w, "retrieve", Retrieve(w, s))
  {
    hide Queries, Top, Drafted;
  }

  lemma DraftExplains(w: World, s: Research)
    requires Explained(w, "draft", s)
    ensures KeepsExplained(w, "draft", Draft(w, s))
  {
    hide Planned, FoundAll;
    var d := Draft(w, s);
    SamePlan(w, s, d.state);
    if d.Moved? {
      assert LastAnswer(w, d.state, 0);
    }
  }

  lemma SamePlan(w: World, s: Research, s': Research)
    requires s'.searches == s.searches && s'.passages == s.passages
    requires s'.question == s.question && s'.maxSearches == s.maxSearches && s'.topK == s.topK
    ensures Planned(w, s) ==> Planned(w, s')
    ensures FoundAll(w, s) ==> FoundAll(w, s')
  {
  }

  lemma CritiqueExplains(w: World, s: Research)
    requires Explained(w, "critique", s) && s.passages != []
    ensures KeepsExplained(w, "critique", Critique(w, s))
  {
    hide Planned, FoundAll;
    var d := Critique(w, s);
    SamePlan(w, s, d.state);
    var r: nat :| LastAnswer(w, s, r);
    assert LastAnswer(w, d.state, r);
    assert s.revisions < s.maxRevisions ==> w.chat(s.asked) == CritiqueReply(w, s.revisions);
  }

  lemma ReviseExplains(w: World, s: Research)
    requires Explained(w, "revise", s)
    ensures KeepsExplained(w, "revise", Revise(w, s))
  {
    hide Planned, FoundAll;
    var d := Revise(w, s);
    SamePlan(w, s, d.state);
    assert w.chat(s.asked) == DraftReply(w, s.revisions + 1);
    if d.Moved? {
      var r: nat :| LastAnswer(w, s, r);
      assert LastAnswer(w, d.state, if w.notAnAnswer(w.chat(s.asked).text) then r else s.revisions + 1);
    }
  }

  lemma NodeExplains(w: World, node: string, s: Research)
    requires Explained(w, node, s) && node in ResearchGraph(0).edges
    requires node == "critique" || node == "revise" ==> s.passages != []
    ensures KeepsExplained(w, node, Nodes(w)(node, s))
  {
    assert node == "plan" || node == "retrieve" || node == "draft" || node == "critique" || node == "revise";
    hide Explained, KeepsExplained, Plan, Retrieve, Draft, Critique, Revise;
    if node == "plan" || node == "retrieve" {
      FirstNodesExplain(w, s);
    } else if node == "draft" {
      DraftExplains(w, s);
    } else if node == "critique" {
      CritiqueExplains(w, s);
    } else {
      ReviseExplains(w, s);
    }
  }

  lemma {:induction false} RunIsExplained(w: World, maxSteps: nat, node: string, steps: seq<Step>, s: Research, m: nat)
    requires On(node, steps, s, m) && Explained(w, node, s) && |steps| <= maxSteps
    ensures var run := RunFrom(ResearchGraph(maxSteps), Nodes(w), node, s, steps);
            match run.outcome
            case Settled => Explained(w, END, run.state)
            case NodeRaised(at, what) => RaisedFor(w, at, run.state, what)
            case _ => true
    decreases maxSteps - |steps|
  {
    hide Explained, RaisedFor;
    if node != END && |steps| < maxSteps {
      NodeKeepsPath(w, node, steps, s, m);
      OnGraph(node, steps, s, m);
      NodeExplains(w, node, s);
      hide On, Nodes;
      match Nodes(w)(node, s)
      case Moved(s', next) => RunIsExplained(w, maxSteps, next, steps + [Step(node, next)], s', m);
      case Raised(_, _) =>
    }
  }

  lemma OnGraph(node: string, steps: seq<Step>, s: Research, m: nat)
    requires On(node, steps, s, m) && node != END
    ensures node in ResearchGraph(0).edges
    ensures node == "critique" || node == "revise" ==> s.passages != []
  {
  }

  /** The answer of a finished run, exactly: it searched for what the plan says, its passages are the best of
      what all the searches found, and if there are any the draft is the last reply of the drafting and the
      revising calls that is an answer. It was revised as long as the critique named something to fix and a
      revision was left, and no longer. */
  lemma AnswerIsReviewed(w: World, request: Request, maxSteps: nat)
    ensures var run := RunFrom(ResearchGraph(maxSteps), Nodes(w), "plan", Fresh(request), []);
            run.outcome.Settled? ==>
              && Planned(w, run.state) && FoundAll(w, run.state)
              && (run.state.passages != [] ==>
                    Drafted(w, run.state, run.state.revisions) && ReviewOver(w, run.state))
  {
    hide Planned, FoundAll, Drafted, ReviewOver;
    RunIsExplained(w, maxSteps, "plan", [], Fresh(request), request.maxRevisions);
  }

  /** A run raises only for a failed search, a fatal reply, or a draft or a revision that never came; a plan or
      a critique that never came is done without. */
  lemma RaisesOnlyFor(w: World, request: Request, maxSteps: nat)
    ensures var run := RunFrom(ResearchGraph(maxSteps), Nodes(w), "plan", Fresh(request), []);
            run.outcome.NodeRaised? ==> RaisedFor(w, run.outcome.node, run.state, run.outcome.what)
  {
    hide RaisedFor;
    RunIsExplained(w, maxSteps, "plan", [], Fresh(request), request.maxRevisions);
  }

  /** A hit was found by one of the searches. */
  ghost predicate FoundBy(w: World, searches: seq<string>, h: Hit) {
    exists q <- searches :: w.search(q).Hits? && h in w.search(q).hits
  }

  /** All searches together find what each of them finds, and fail if one of them does. */
  lemma {:induction false} SearchedIsAll(w: World, searches: seq<string>)
    ensures Searched(w, searches).Hits? <==> forall q <- searches :: w.search(q).Hits?
    ensures Searched(w, searches).Hits? ==>
              forall h :: h in Searched(w, searches).hits <==> FoundBy(w, searches, h)
  {
    if searches != [] {
      var front, last := searches[..|searches| - 1], searches[|searches| - 1];
      assert searches == front + [last];
      SearchedIsAll(w, front);
      if Searched(w, searches).Hits? {
        forall h
          ensures h in Searched(w, searches).hits <==> FoundBy(w, searches, h)
        {
          assert h in Searched(w, searches).hits <==> FoundBy(w, front, h) || h in w.search(last).hits;
        }
      }
    }
  }

  /** What the first `n` calls cost: only those that were answered count. */
  datatype Bill = Bill(calls: nat, promptTokens: nat, completionTokens: nat, cost: real)

  function BillOf(w: World, n: nat): Bill {
    if n == 0 then Bill(0, 0, 0, 0.0)
    else
      var before := BillOf(w, n - 1);
      match w.chat(n - 1)
      case Answered(_, prompt, completion, cost) =>
        Bill(before.calls + 1, before.promptTokens + prompt, before.completionTokens + completion, before.cost + cost)
      case _ => before
  }

  ghost predicate Billed(w: World, s: Research) {
    Bill(s.llmCalls, s.promptTokens, s.completionTokens, s.cost) == BillOf(w, s.asked)
  }

  lemma NodeBills(w: World, node: string, s: Research)
    requires Billed(w, s)
    ensures Billed(w, Nodes(w)(node, s).state)
  {
    hide Queries, Top, Searched;
    assert BillOf(w, s.asked + 1) == BillOf(w, s.asked) || w.chat(s.asked).Answered?;
  }

  lemma {:induction false} RunIsBilled(w: World, g: Graph, node: string, steps: seq<Step>, s: Research)
    requires Billed(w, s)
    ensures Billed(w, RunFrom(g, Nodes(w), node, s, steps).state)
    decreases g.maxSteps - |steps|
  {
    hide Billed;
    if node != END && |steps| < g.maxSteps {
      NodeBills(w, node, s);
      hide Nodes;
      var d := Nodes(w)(node, s);
      if d.Moved? && node in g.edges && d.next in g.edges[node] {
        RunIsBilled(w, g, d.next, steps + [Step(node, d.next)], d.state);
      }
    }
  }

  /** However a run ends, it is charged for exactly the calls that were answered. */
  lemma RunIsCharged(w: World, request: Request, maxSteps: nat)
    ensures Billed(w, RunFrom(ResearchGraph(maxSteps), Nodes(w), "plan", Fresh(request), []).state)
  {
    RunIsBilled(w, ResearchGraph(maxSteps), "plan", [], Fresh(request));
  }

  // ------------------------------------------------------------------ the nodes as they are run

  /** How a node's method ends. */
  datatype NodeEnd = Goes(next: string) | Raises(what: string)

  ghost predicate Came(d: Decision<Research>, s: Research, e: NodeEnd) {
    d == match e case Goes(next) => Moved(s, next) case Raises(what) => Raised(s, what)
  }

  class ResearchState {
    const question: string
    const topK: nat
    const maxSearches: nat
    const maxRevisions: nat
    var searches: seq<string>
    var passages: seq<Hit>
    var draft: string
    var critique: Option<string>
    var issues: seq<string>
    var revisions: nat
    var llmCalls: nat
    var promptTokens: nat
    var completionTokens: nat
    var cost: real
    ghost var asked: nat

    constructor (r: Request)
      ensures Value() == Fresh(r)
    {
      question, topK, maxSearches, maxRevisions := r.question, r.topK, r.maxSearches, r.maxRevisions;
      searches, passages, draft, critique, issues := [], [], "", None, [];
      revisions, llmCalls, promptTokens, completionTokens, cost, asked := 0, 0, 0, 0, 0.0, 0;
    }

    ghost function Value(): Research
      reads this
    {
      Research(question, topK, maxSearches, maxRevisions, searches, passages, draft, critique, issues, revisions,
               llmCalls, promptTokens, completionTokens, cost, asked)
    }
  }

  /** A node's methods get the reply to the call they make, if they make one. */
  class AgentNodes {
    const w: World

    constructor (w: World)
      ensures this.w == w
    {
      this.w := w;
    }

    method Ask(state: ResearchState, reply: Reply)
      modifies state
      ensures state.Value() == Charged(old(state.Value()), reply)
    {
      state.asked := state.asked + 1;
      if reply.Answered? {
        state.llmCalls := state.llmCalls + 1;
        state.promptTokens := state.promptTokens + reply.promptTokens;
        state.completionTokens := state.completionTokens + reply.completionTokens;
        state.cost := state.cost + reply.cost;
      }
    }

    method PlanNode(state: ResearchState, reply: Reply) returns (e: NodeEnd)
      requires reply == w.chat(state.asked)
      modifies state
      ensures Came(Plan(w, old(state.Value())), state.Value(), e)
    {
      Ask(state, reply);
      if reply.Fatal? {
        return Raises(reply.what);
      }
      var lines := if reply.Answered? then w.queriesOf(reply.text) else [];
      state.searches := Queries(lines, state.question, state.maxSearches);
      return Goes("retrieve");
    }

    /** `retrieve`'s loop over the searches, and the one over a search's hits. */
    method Search(searches: seq<string>) returns (best: seq<Hit>, failure: Option<string>)
      ensures match Searched(w, searches)
              case SearchFailed(what) => failure == Some(what)
              case Hits(hits) => failure == None && best == Merged(hits)
    {
      hide WithHit, Merged, Searched;
      best, failure := [], None;
      ghost var seen: seq<Hit> := [];
      NothingSearched(w, searches);
      for i := 0 to |searches|
        invariant Searched(w, searches[..i]) == Hits(seen) && best == Merged(seen)
      {
        OneSearchMore(w, searches, i);
        var found := w.search(searches[i]);
        if found.SearchFailed? {
          FailureStays(w, searches, i);
          return best, Some(found.what);
        }
        best := AddHits(best, found.hits, seen);
        seen := seen + found.hits;
      }
      assert searches[..|searches|] == searches;
    }

    method AddHits(best: seq<Hit>, hits: seq<Hit>, ghost seen: seq<Hit>) returns (best': seq<Hit>)
      requires best == Merged(seen)
      ensures best' == Merged(seen + hits)
    {
      hide WithHit, Merged;
      best' := best;
      assert seen + hits[..0] == seen;
      for j := 0 to |hits|
        invariant best' == Merged(seen + hits[..j])
      {
        OneHitMore(seen, hits, j);
        best' := WithHit(best', hits[j]);
      }
      assert hits[..|hits|] == hits;
    }

    method RetrieveNode(state: ResearchState) returns (e: NodeEnd)
      modifies state
      ensures Came(Retrieve(w, old(state.Value())), state.Value(), e)
    {
      var best, failure := Search(state.searches);
      if failure.Some? {
        return Raises(failure.value);
      }
      state.passages := First(Ranked(best), state.topK);
      if state.passages == [] {
        state.draft := NO_CONTEXT_ANSWER;
        return Goes(END);
      }
      return Goes("draft");
    }

    method DraftNode(state: ResearchState, reply: Reply) returns (e: NodeEnd)
      requires reply == w.chat(state.asked)
      modifies state
      ensures Came(Draft(w, old(state.Value())), state.Value(), e)
    {
      Ask(state, reply);
      if !reply.Answered? {
        return Raises(reply.what);
      }
      state.draft := reply.text;
      return Goes("critique");
    }

    method CritiqueNode(state: ResearchState, reply: Reply) returns (e: NodeEnd)
      requires reply == w.chat(state.asked)
      modifies state
      ensures Came(Critique(w, old(state.Value())), state.Value(), e)
    {
      if state.revisions >= state.maxRevisions {
        return Goes(END);
      }
      Ask(state, reply);
      match reply
      case Fatal(what) =>
        return Raises(what);
      case Broken(_) =>
        return Goes(END);
      case Answered(text, _, _, _) =>
        state.critique := Some(text);
        state.issues := w.issuesOf(text);
        if w.approves(text) {
          state.issues := [];
          return Goes(END);
        }
        if state.issues == [] {
          return Goes(END);
        }
        return Goes("revise");
    }

    method ReviseNode(state: ResearchState, reply: Reply) returns (e: NodeEnd)
      requires reply == w.chat(state.asked)
      modifies state
      ensures Came(Revise(w, old(state.Value())), state.Value(), e)
    {
      Ask(state, reply);
      if !reply.Answered? {
        return Raises(reply.what);
      }
      state.revisions := state.revisions + 1;
      if w.notAnAnswer(reply.text) {
        return Goes("critique");
      }
      state.draft := reply.text;
      return Goes("critique");
    }
  }

  lemma OneHitMore(seen: seq<Hit>, hits: seq<Hit>, j: nat)
    requires j < |hits|
    ensures Merged(seen + hits[..j + 1]) == WithHit(Merged(seen + hits[..j]), hits[j])
  {
    hide WithHit;
    assert (seen + hits[..j + 1])[..|seen| + j] == seen + hits[..j];
  }

  lemma NothingSearched(w: World, searches: seq<string>)
    ensures Searched(w, searches[..0]) == Hits([]) && Merged([]) == []
  {
  }

  lemma OneSearchMore(w: World, searches: seq<string>, i: nat)
    requires i < |searches| && Searched(w, searches[..i]).Hits?
    ensures Searched(w, searches[..i + 1]) ==
            match w.search(searches[i])
            case SearchFailed(what) => SearchFailed(what)
            case Hits(hits) => Hits(Searched(w, searches[..i]).hits + hits)
  {
    assert searches[..i + 1][..i] == searches[..i];
  }

  lemma {:induction false} FailureStays(w: World, searches: seq<string>, i: nat)
    requires i < |searches| && Searched(w, searches[..i]).Hits? && w.search(searches[i]).SearchFailed?
    ensures Searched(w, searches) == w.search(searches[i])
    decreases |searches|
  {
    var last := |searches| - 1;
    if i < last {
      assert searches[..last][..i] == searches[..i];
      FailureStays(w, searches[..last], i);
    }
  }

  datatype Response = Response(answer: string, steps: seq<Step>, revisions: nat, llmCalls: nat, cost: real,
                               outcome: string)

  /** `research`: a run that outlives its budget still answers, with the last draft. */
  method Answer(w: World, request: Request, maxSteps: nat) returns (response: Option<Response>)
    ensures var run := RunFrom(ResearchGraph(maxSteps), Nodes(w), "plan", Fresh(request), []);
            && (response.None? <==> run.outcome.NodeRaised?)
            && (response.Some? ==>
                  var r := response.value;
                  && r == Response(run.state.draft, run.steps, run.state.revisions, run.state.llmCalls, run.state.cost,
                                   r.outcome)
                  && (r.outcome == "answered" <==> run.outcome.Settled? && run.state.passages != [])
                  && (r.outcome == "budget_exceeded" <==> run.outcome.BudgetSpent?)
                  && (r.outcome == "no_context" <==> run.outcome.Settled? && run.state.passages == [])
                  && (r.outcome == "budget_exceeded" ==> maxSteps < 4 + 2 * request.maxRevisions)
                  && (r.outcome == "no_context" ==> r.answer == NO_CONTEXT_ANSWER && r.llmCalls <= 1)
                  && |r.steps| <= 4 + 2 * request.maxRevisions && r.llmCalls <= 2 + 2 * request.maxRevisions)
  {
    ResearchGraphIsValid(maxSteps);
    AgentRunIsBounded(w, request, maxSteps);
    var run := RunGraph(ResearchGraph(maxSteps), Nodes(w), Fresh(request));
    if run.outcome.NodeRaised? {
      return None;
    }
    var outcome := if run.outcome.BudgetSpent? then "budget_exceeded"
                   else if run.state.passages != [] then "answered" else "no_context";
    response := Some(Response(run.state.draft, run.steps, run.state.revisions, run.state.llmCalls, run.state.cost,
                              outcome));
  }
}
