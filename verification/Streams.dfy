/** What happens to a stream once it has produced its first token: `_relay`, `_absorb`, `_estimate`,
    `_settle` and `_chunk_completion` of app/gateway/router.py. */
module Streams {
  import opened Wrappers
  import opened CircuitBreakers
  import opened Router

  datatype Delta = Delta(content: string, finishReason: Option<string>, usage: Option<Usage>, model: string)

  /** How the provider's iterator, or the client, ends a started relay. `Abandoned` covers a client
      that hangs up at a yield and a task cancelled at an await. */
  datatype Ending = Finished | Broke | Abandoned

  /** One count of a stream's (or answer's) tokens and cost: the three counter increments. */
  datatype Bill = Bill(deployment: string, usage: Usage, cost: real)

  class Meter {
    var bills: seq<Bill>

    constructor ()
      ensures bills == []
    {
      bills := [];
    }
  }

  // ------------------------------------------------------------------ counting words

  /** The characters str.split() separates at. */
  predicate IsSpace(c: char) {
    var n := c as int;
    || 9 <= n <= 13 || 28 <= n <= 32 || n == 0x85 || n == 0xA0 || n == 0x1680 || 0x2000 <= n <= 0x200A
    || n == 0x2028 || n == 0x2029 || n == 0x202F || n == 0x205F || n == 0x3000
  }

  /** A field starts at position `i`: at the start of the text, or right after a separator. */
  predicate FieldStarts(s: string, i: nat)
    requires i <= |s|
  {
    i == 0 || IsSpace(s[i - 1])
  }

  /** Words that start before position `n`; `Words(s)` is len(s.split()). */
  function WordsBefore(s: string, n: nat): nat
    requires n <= |s|
  {
    if n == 0 then 0
    else WordsBefore(s, n - 1) + (if FieldStarts(s, n - 1) && !IsSpace(s[n - 1]) then 1 else 0)
  }

  function Words(s: string): nat {
    WordsBefore(s, |s|)
  }

  /** Fields with nothing in them: before a leading separator, after a trailing one, between two. */
  function EmptyFieldsBefore(s: string, n: nat): nat
    requires n <= |s| + 1
  {
    if n == 0 then 0
    else EmptyFieldsBefore(s, n - 1)
         + (if FieldStarts(s, n - 1) && (n - 1 == |s| || IsSpace(s[n - 1])) then 1 else 0)
  }

  function EmptyFields(s: string): nat {
    EmptyFieldsBefore(s, |s| + 1)
  }

  function CountBefore(s: string, n: nat, p: char -> bool): nat
    requires n <= |s|
  {
    if n == 0 then 0 else CountBefore(s, n - 1, p) + (if p(s[n - 1]) then 1 else 0)
  }

  function Count(s: string, p: char -> bool): nat {
    CountBefore(s, |s|, p)
  }

  const BLANK: char -> bool := c => c == ' '
  const OTHER_SPACE: char -> bool := c => IsSpace(c) && c != ' '

  /** The words the relay counts as the pieces go out: blanks, and one more if the first is not empty. */
  function RunningWords(first: string, text: string): nat {
    Count(text, BLANK) + (if first == "" then 0 else 1)
  }

  lemma {:induction false} FieldsAreWordsOrEmpty(s: string, n: nat)
    requires n <= |s|
    ensures WordsBefore(s, n) + EmptyFieldsBefore(s, n)
         == (if n == 0 then 0 else 1 + CountBefore(s, n - 1, BLANK) + CountBefore(s, n - 1, OTHER_SPACE))
  {
    if n > 0 {
      FieldsAreWordsOrEmpty(s, n - 1);
    }
  }

  /** For every text: the running count and the recount differ by exactly the empty fields, the
      separators that are not blanks, and the one word an empty first piece hides. */
  lemma RunningCountVersusRecount(first: string, text: string)
    ensures RunningWords(first, text) + Count(text, OTHER_SPACE) + (if first == "" then 1 else 0)
         == Words(text) + EmptyFields(text)
  {
    FieldsAreWordsOrEmpty(text, |text|);
  }

  /** Tidy text: something, not starting or ending with a separator, and never two in a row. */
  ghost predicate Tidy(s: string) {
    && s != "" && !IsSpace(s[0]) && !IsSpace(s[|s| - 1])
    && forall i :: 0 < i < |s| ==> !(IsSpace(s[i - 1]) && IsSpace(s[i]))
  }

  lemma {:induction false} NoEmptyFieldsBefore(s: string, n: nat)
    requires n <= |s| + 1
    ensures EmptyFieldsBefore(s, n) == 0
       <==> forall i: nat :: i < n ==> !(FieldStarts(s, i) && (i == |s| || IsSpace(s[i])))
  {
    if n > 0 {
      NoEmptyFieldsBefore(s, n - 1);
    }
  }

  /** So while blanks are the only separators and the first piece is not empty, the running count is
      right if and only if the text is tidy. */
  lemma RunningCountIsRightIffTidy(first: string, text: string)
    requires first != "" && first <= text && Count(text, OTHER_SPACE) == 0
    ensures RunningWords(first, text) == Words(text) <==> Tidy(text)
  {
    RunningCountVersusRecount(first, text);
    NoEmptyFieldsBefore(text, |text| + 1);
    if EmptyFields(text) == 0 {
      assert !(FieldStarts(text, 0) && IsSpace(text[0]));
      assert !FieldStarts(text, |text|);
      forall i | 0 < i < |text|
        ensures !(IsSpace(text[i - 1]) && IsSpace(text[i]))
      {
        assert !(FieldStarts(text, i) && IsSpace(text[i]));
      }
    }
  }

  lemma {:induction false} CountConcat(a: string, b: string, n: nat, p: char -> bool)
    requires n <= |b|
    ensures CountBefore(a + b, |a| + n, p) == Count(a, p) + CountBefore(b, n, p)
  {
    if n == 0 {
      CountPrefix(a, b, |a|, p);
    } else {
      CountConcat(a, b, n - 1, p);
    }
  }

  lemma {:induction false} CountPrefix(a: string, b: string, n: nat, p: char -> bool)
    requires n <= |a|
    ensures CountBefore(a + b, n, p) == CountBefore(a, n, p)
  {
    if n > 0 {
      CountPrefix(a, b, n - 1, p);
    }
  }

  // ------------------------------------------------------------------ what a stream adds up to

  /** Everything the client was sent. */
  function Delivered(first: Delta, deltas: seq<Delta>): string {
    if deltas == [] then first.content else Delivered(first, Front(deltas)) + Last(deltas).content
  }

  /** The provider's own token counts: the last ones it sent, on any delta. */
  function Report(first: Delta, deltas: seq<Delta>): Option<Usage> {
    if deltas == [] then first.usage
    else if Last(deltas).usage.Some? then Last(deltas).usage
    else Report(first, Front(deltas))
  }

  function FinishReason(first: Delta, deltas: seq<Delta>): string {
    var last := if deltas == [] then first else Last(deltas);
    if last.finishReason.Some? then last.finishReason.value
    else if deltas == [] then "stop"
    else FinishReason(first, Front(deltas))
  }

  function UsageSoFar(prompt: nat, first: Delta, deltas: seq<Delta>): Usage {
    match Report(first, deltas)
    case Some(u) => u
    case None => Usage(prompt, RunningWords(first.content, Delivered(first, deltas)))
  }

  /** The usage on show after the first token and after each delta that followed. */
  function Quotes(prompt: nat, first: Delta, deltas: seq<Delta>): (q: seq<Usage>)
    ensures |q| == |deltas| + 1
  {
    (if deltas == [] then [] else Quotes(prompt, first, Front(deltas))) + [UsageSoFar(prompt, first, deltas)]
  }

  lemma {:induction false} QuoteAt(prompt: nat, first: Delta, deltas: seq<Delta>, j: nat)
    requires j <= |deltas|
    ensures Quotes(prompt, first, deltas)[j] == UsageSoFar(prompt, first, deltas[..j])
  {
    if j == |deltas| {
      assert deltas[..j] == deltas;
    } else {
      QuoteAt(prompt, first, Front(deltas), j);
      assert Front(deltas)[..j] == deltas[..j];
    }
  }

  /** The report that counts is the last one sent. */
  lemma {:induction false} ReportIsTheLast(first: Delta, deltas: seq<Delta>) returns (i: nat)
    ensures var all, report := [first] + deltas, Report(first, deltas);
            if report.None? then forall d <- all :: d.usage.None?
            else i < |all| && all[i].usage == report && forall j :: i < j < |all| ==> all[j].usage.None?
  {
    i := |deltas|;
    if deltas != [] && Last(deltas).usage.None? {
      assert [first] + deltas == [first] + Front(deltas) + [Last(deltas)];
      i := ReportIsTheLast(first, Front(deltas));
    }
  }

  /** So does the last reason to finish, and it is "stop" if none is given. */
  lemma {:induction false} FinishReasonIsTheLast(first: Delta, deltas: seq<Delta>) returns (i: nat)
    ensures var all, reason := [first] + deltas, FinishReason(first, deltas);
            || (reason == "stop" && forall d <- all :: d.finishReason.None?)
            || (i < |all| && all[i].finishReason == Some(reason)
                && forall j :: i < j < |all| ==> all[j].finishReason.None?)
  {
    i := |deltas|;
    if deltas != [] && Last(deltas).finishReason.None? {
      assert [first] + deltas == [first] + Front(deltas) + [Last(deltas)];
      i := FinishReasonIsTheLast(first, Front(deltas));
    }
  }

  function Contents(deltas: seq<Delta>): seq<string> {
    seq(|deltas|, i requires 0 <= i < |deltas| => deltas[i].content)
  }

  /** What is passed on is what has text, and says together with the first token what was delivered. */
  lemma {:induction false} PassedIsDelivered(first: Delta, deltas: seq<Delta>)
    ensures forall d :: d in Passed(deltas) <==> d in deltas && d.content != ""
    ensures Delivered(first, deltas) == Joined([first.content] + Contents(Passed(deltas)))
  {
    if deltas == [] {
      assert Front([first.content] + Contents([])) == [];
    } else {
      var front, last := Front(deltas), Last(deltas);
      PassedIsDelivered(first, front);
      assert deltas == front + [last];
      JoinedMore(first.content, Passed(front), last);
      assert Passed(front) + [] == Passed(front) && Delivered(first, front) + "" == Delivered(first, front);
    }
  }

  lemma JoinedMore(text: string, passed: seq<Delta>, d: Delta)
    ensures Joined([text] + Contents(passed + [d])) == Joined([text] + Contents(passed)) + d.content
  {
    assert Contents(passed + [d]) == Contents(passed) + [d.content];
    assert Front([text] + Contents(passed + [d])) == [text] + Contents(passed);
  }

  /** The last estimate made, the one that is priced: none is made once a report has come. */
  function Estimated(prompt: nat, first: Delta, deltas: seq<Delta>): Option<Usage> {
    if deltas == [] then
      if first.usage.Some? then None else Some(Usage(prompt, RunningWords(first.content, first.content)))
    else if Report(first, deltas).Some? || Last(deltas).content == "" then Estimated(prompt, first, Front(deltas))
    else Some(Usage(prompt, RunningWords(first.content, Delivered(first, deltas))))
  }

  /** The price on show is the price of the usage on show until a report comes, and stays what it was from
      then to the settlement. */
  lemma {:induction false} PriceFollowsUsage(prompt: nat, first: Delta, deltas: seq<Delta>, j: nat)
    requires j <= |deltas|
    ensures Report(first, deltas).None? ==>
              Estimated(prompt, first, deltas) == Some(UsageSoFar(prompt, first, deltas))
    ensures Report(first, deltas[..j]).Some? ==>
              Report(first, deltas).Some? && Estimated(prompt, first, deltas) == Estimated(prompt, first, deltas[..j])
  {
    if j == |deltas| {
      assert deltas[..j] == deltas;
    }
    if deltas != [] {
      var k := if j == |deltas| then j - 1 else j;
      PriceFollowsUsage(prompt, first, Front(deltas), k);
      assert Front(deltas)[..k] == deltas[..k];
      assert Last(deltas).content == "" ==>
          Delivered(first, Front(deltas)) + Last(deltas).content == Delivered(first, Front(deltas));
    }
  }

  function FinalUsage(prompt: nat, first: Delta, deltas: seq<Delta>): Usage {
    match Report(first, deltas)
    case Some(u) => u
    case None => Usage(prompt, Words(Delivered(first, deltas)))
  }

  /** What reaches the client: a delta without text is absorbed, not passed on. */
  function Passed(deltas: seq<Delta>): seq<Delta> {
    if deltas == [] then []
    else Passed(Front(deltas)) + (if Last(deltas).content == "" then [] else [Last(deltas)])
  }

  class OpenStream {
    const deployment: Deployment
    const promptEstimate: nat
    const listPrice: (string, Usage) -> real
    var attempts: seq<Attempt>
    var model: string
    var usage: Usage
    var finishReason: string
    var cost: real
    var usageEstimated: bool
    var reportedUsage: bool
    var settled: bool

    constructor (deployment: Deployment, first: Delta, promptEstimate: nat, attempts: seq<Attempt>,
                 listPrice: (string, Usage) -> real)
      ensures this.deployment == deployment && this.promptEstimate == promptEstimate && this.listPrice == listPrice
      ensures !settled && !reportedUsage && finishReason == "stop" && this.attempts == attempts
    {
      this.deployment, this.promptEstimate, this.listPrice := deployment, promptEstimate, listPrice;
      this.attempts := attempts;
      model := if first.model != "" then first.model else deployment.model;
      usage, finishReason, cost := Usage(0, 0), "stop", 0.0;
      usageEstimated, reportedUsage, settled := false, false, false;
    }

    method Absorb(delta: Delta)
      modifies this`usage, this`reportedUsage, this`finishReason, this`model
      ensures usage == (if delta.usage.Some? then delta.usage.value else old(usage))
      ensures reportedUsage == (old(reportedUsage) || delta.usage.Some?)
      ensures finishReason == (if delta.finishReason.Some? then delta.finishReason.value else old(finishReason))
      ensures model == (if delta.model != "" then delta.model else old(model))
    {
      if delta.usage.Some? {
        usage := delta.usage.value;
        reportedUsage := true;
      }
      if delta.finishReason.Some? {
        finishReason := delta.finishReason.value;
      }
      if delta.model != "" {
        model := delta.model;
      }
    }

    method Estimate(words: nat)
      modifies this`usage, this`usageEstimated, this`cost
      ensures reportedUsage ==> unchanged(this)
      ensures !reportedUsage ==>
                && usage == Usage(promptEstimate, words) && usageEstimated
                && cost == ComputeCost(deployment, usage, listPrice)
    {
      if reportedUsage {
        return;
      }
      usage := Usage(promptEstimate, words);
      usageEstimated := true;
      cost := ComputeCost(deployment, usage, listPrice);
    }

    /** Idempotent: a settled stream is left alone and billed no second time. */
    method Settle(text: string, meter: Meter)
      modifies this`usage, this`usageEstimated, this`cost, this`settled, meter
      ensures settled
      ensures old(settled) ==> unchanged(this) && unchanged(meter)
      ensures !old(settled) ==>
                && usage == (if reportedUsage then old(usage) else Usage(promptEstimate, Words(text)))
                && usageEstimated == !reportedUsage
                && cost == ComputeCost(deployment, usage, listPrice)
                && meter.bills == old(meter.bills) + [Bill(deployment.name, usage, cost)]
    {
      if settled {
        return;
      }
      settled := true;
      if reportedUsage {
        usageEstimated := false;
      } else {
        usage := Usage(promptEstimate, Words(text));
        usageEstimated := true;
      }
      cost := ComputeCost(deployment, usage, listPrice);
      meter.bills := meter.bills + [Bill(deployment.name, usage, cost)];
    }

    /** `_relay`, from its start to whatever ends it. `deltas` is what the provider produced after
        the first token; `quoted` records the usage on show after each of them.

        However the stream ends it is billed exactly once, on the provider's report if there was
        one and on the delivered text otherwise; and only a provider that finished counts as a
        success, only one that broke as a failure. */
    method Relay(first: Delta, deltas: seq<Delta>, ending: Ending, breaker: CircuitBreaker, tick: Tick, meter: Meter)
      returns (sent: seq<Delta>, interrupted: Option<string>, ghost quoted: seq<Usage>)
      requires !settled && !reportedUsage && finishReason == "stop"
      modifies this, meter, breaker
      ensures sent == Passed(deltas)
      ensures quoted == Quotes(promptEstimate, first, deltas)
      ensures settled && usage == FinalUsage(promptEstimate, first, deltas)
      ensures usageEstimated <==> Report(first, deltas).None?
      ensures finishReason == FinishReason(first, deltas)
      ensures cost == ComputeCost(deployment, usage, listPrice)
      ensures meter.bills == old(meter.bills) + [Bill(deployment.name, usage, cost)]
      ensures breaker.Value() == match ending
                                 case Finished => Succeeded(old(breaker.Value()))
                                 case Broke => FailedShared(breaker.limits, old(breaker.Value()), tick)
                                 case Abandoned => old(breaker.Value())
      ensures interrupted == if ending.Broke? then Some(Delivered(first, deltas)) else None
      ensures attempts == if ending.Broke? then old(attempts) + [Attempt(deployment.name, StreamInterrupted)]
                          else old(attempts)
    {
      var delivered;
      sent, delivered, quoted := Pump(first, deltas);
      interrupted := None;
      match ending {
        case Finished =>
          breaker.RecordSuccess();
          Settle(delivered, meter);
        case Broke =>
          Settle(delivered, meter);
          attempts := attempts + [Attempt(deployment.name, StreamInterrupted)];
          var tripped := breaker.RecordFailure(tick.now);
          if !tripped && tick.pooled.Some? {
            breaker.Adopt(OPEN, tick.pooled.value, tick.now);
          }
          interrupted := Some(delivered);
        case Abandoned =>
      }
      // the source's `finally`, on every path: a second settlement unless the stream was abandoned
      Settle(delivered, meter);
    }

    /** One delta of the relay: absorb what it reports, and price the text it adds. */
    method Pass(delta: Delta, words: nat) returns (words': nat)
      modifies this`usage, this`reportedUsage, this`finishReason, this`model, this`usageEstimated, this`cost
      ensures words' == words + Count(delta.content, BLANK)
      ensures reportedUsage == (old(reportedUsage) || delta.usage.Some?)
      ensures finishReason == (if delta.finishReason.Some? then delta.finishReason.value else old(finishReason))
      ensures usage == if delta.usage.Some? then delta.usage.value
                       else if old(reportedUsage) || delta.content == "" then old(usage)
                       else Usage(promptEstimate, words')
      ensures cost == Price(if reportedUsage || delta.content == "" then None else Some(usage), old(cost))
    {
      Absorb(delta);
      words' := words;
      if delta.content != "" {
        words' := words + Count(delta.content, BLANK);
        Estimate(words');
      }
    }

    /** The relay's first step: the token that opened the stream. */
    method Begin(first: Delta) returns (words: nat)
      requires !reportedUsage && finishReason == "stop"
      modifies this`usage, this`reportedUsage, this`finishReason, this`model, this`usageEstimated, this`cost
      ensures Along(promptEstimate, first, [], [], first.content, words, [usage])
      ensures Shows(promptEstimate, first, [], usage, reportedUsage, finishReason)
      ensures cost == Price(Estimated(promptEstimate, first, []), old(cost))
    {
      Absorb(first);
      words := Count(first.content, BLANK) + (if first.content == "" then 0 else 1);
      Estimate(words);
    }

    function Price(estimate: Option<Usage>, before: real): real {
      if estimate.Some? then ComputeCost(deployment, estimate.value, listPrice) else before
    }

    /** The part of `_relay` that passes text through. */
    method Pump(first: Delta, deltas: seq<Delta>)
      returns (sent: seq<Delta>, delivered: string, ghost quoted: seq<Usage>)
      requires !settled && !reportedUsage && finishReason == "stop"
      modifies this`usage, this`reportedUsage, this`finishReason, this`model, this`usageEstimated, this`cost
      ensures sent == Passed(deltas) && delivered == Delivered(first, deltas)
      ensures quoted == Quotes(promptEstimate, first, deltas)
      ensures reportedUsage == Report(first, deltas).Some? && finishReason == FinishReason(first, deltas)
      ensures usage == UsageSoFar(promptEstimate, first, deltas)
      ensures cost == Price(Estimated(promptEstimate, first, deltas), old(cost))
    {
      hide Along, Shows, Delivered, Passed, Report, FinishReason, Count, RunningWords, UsageSoFar, Quotes, Estimated;
      hide ComputeCost;
      var words := Begin(first);
      delivered, sent, quoted := first.content, [], [usage];
      assert deltas[..0] == [];
      var i := 0;
      while i < |deltas|
        invariant 0 <= i <= |deltas|
        invariant Along(promptEstimate, first, deltas[..i], sent, delivered, words, quoted)
        invariant Shows(promptEstimate, first, deltas[..i], usage, reportedUsage, finishReason)
        invariant cost == Price(Estimated(promptEstimate, first, deltas[..i]), old(cost))
      {
        OneMoreShows(promptEstimate, first, deltas, i, sent, delivered, words, quoted, usage, reportedUsage,
                     finishReason);
        words := Pass(deltas[i], words);
        if deltas[i].content != "" {
          delivered := delivered + deltas[i].content;
          sent := sent + [deltas[i]];
        }
        quoted := quoted + [usage];
        i := i + 1;
      }
      assert deltas[..i] == deltas;
      AllAlong(promptEstimate, first, deltas, sent, delivered, words, quoted, usage, reportedUsage, finishReason);
    }
  }

  /** What has gone out and what was quoted, after `ds`. */
  ghost predicate Along(prompt: nat, first: Delta, ds: seq<Delta>, sent: seq<Delta>, delivered: string, words: nat,
                        quoted: seq<Usage>) {
    && sent == Passed(ds) && delivered == Delivered(first, ds) && words == RunningWords(first.content, delivered)
    && quoted == Quotes(prompt, first, ds)
  }

  /** What the stream shows after `ds`. */
  ghost predicate Shows(prompt: nat, first: Delta, ds: seq<Delta>, usage: Usage, reported: bool, reason: string) {
    && usage == UsageSoFar(prompt, first, ds) && reported == Report(first, ds).Some?
    && reason == FinishReason(first, ds)
  }

  lemma AllAlong(prompt: nat, first: Delta, ds: seq<Delta>, sent: seq<Delta>, delivered: string, words: nat,
                 quoted: seq<Usage>, usage: Usage, reported: bool, reason: string)
    requires Along(prompt, first, ds, sent, delivered, words, quoted)
    requires Shows(prompt, first, ds, usage, reported, reason)
    ensures sent == Passed(ds) && delivered == Delivered(first, ds) && quoted == Quotes(prompt, first, ds)
    ensures usage == UsageSoFar(prompt, first, ds) && reported == Report(first, ds).Some?
    ensures reason == FinishReason(first, ds)
  {
  }

  lemma OneMoreShows(prompt: nat, first: Delta, deltas: seq<Delta>, i: nat, sent: seq<Delta>, delivered: string,
                     words: nat, quoted: seq<Usage>, usage: Usage, reported: bool, reason: string)
    requires i < |deltas| && Along(prompt, first, deltas[..i], sent, delivered, words, quoted)
    requires Shows(prompt, first, deltas[..i], usage, reported, reason)
    ensures var after, delta, words' := deltas[..i + 1], deltas[i], words + Count(deltas[i].content, BLANK);
            var usage' := if delta.usage.Some? then delta.usage.value
                          else if reported || delta.content == "" then usage
                          else Usage(prompt, words');
            && Along(prompt, first, after, if delta.content == "" then sent else sent + [delta],
                     if delta.content == "" then delivered else delivered + delta.content, words', quoted + [usage'])
            && Shows(prompt, first, after, usage', reported || delta.usage.Some?,
                     if delta.finishReason.Some? then delta.finishReason.value else reason)
            && var now := Estimated(prompt, first, after);
            now == if reported || delta.usage.Some? || delta.content == "" then Estimated(prompt, first, deltas[..i])
                   else Some(usage')
  {
    OneMoreDelta(first, deltas, i);
    assert Front(deltas[..i + 1]) == deltas[..i];
  }

  lemma OneMoreDelta(first: Delta, deltas: seq<Delta>, i: nat)
    requires i < |deltas|
    ensures var before, after, delta := deltas[..i], deltas[..i + 1], deltas[i];
            && Delivered(first, after) == Delivered(first, before) + delta.content
            && (delta.content == "" ==> Delivered(first, after) == Delivered(first, before))
            && Passed(after) == Passed(before) + (if delta.content == "" then [] else [delta])
            && Report(first, after) == (if delta.usage.Some? then delta.usage else Report(first, before))
            && FinishReason(first, after)
               == (if delta.finishReason.Some? then delta.finishReason.value else FinishReason(first, before))
            && RunningWords(first.content, Delivered(first, after))
               == RunningWords(first.content, Delivered(first, before)) + Count(delta.content, BLANK)
  {
    var before, after, delta := deltas[..i], deltas[..i + 1], deltas[i];
    assert Front(after) == before && Last(after) == delta;
    CountConcat(Delivered(first, before), delta.content, |delta.content|, BLANK);
    assert delta.content == "" ==> Delivered(first, before) + delta.content == Delivered(first, before);
  }

  // ------------------------------------------------------------------ an adapter that cannot stream

  /** The slices `content[i : i + size]`, or one empty piece for an empty answer. */
  function Pieces(content: string, size: nat): (pieces: seq<string>)
    requires size > 0
    ensures pieces != []
  {
    if |content| <= size then [content] else [content[..size]] + Pieces(content[size..], size)
  }

  function Chunked(r: Response, size: nat): (Delta, seq<Delta>)
    requires size > 0
  {
    var pieces := Pieces(r.content, size);
    (Delta(pieces[0], None, None, r.model),
     seq(|pieces| - 1, i requires 0 <= i < |pieces| - 1 => Delta(pieces[i + 1], None, None, r.model))
     + [Delta("", Some(r.finishReason), Some(r.usage), r.model)])
  }

  function Joined(pieces: seq<string>): string {
    if pieces == [] then "" else Joined(Front(pieces)) + Last(pieces)
  }

  lemma {:induction false} JoinedCons(p: string, rest: seq<string>)
    ensures Joined([p] + rest) == p + Joined(rest)
  {
    if rest == [] {
      assert Front([p]) == [];
    } else {
      JoinedCons(p, Front(rest));
      assert Front([p] + rest) == [p] + Front(rest);
    }
  }

  lemma {:induction false} PiecesJoinBack(content: string, size: nat)
    requires size > 0
    ensures Joined(Pieces(content, size)) == content
  {
    if |content| <= size {
      assert Front([content]) == [];
    } else {
      var rest := Pieces(content[size..], size);
      PiecesJoinBack(content[size..], size);
      JoinedCons(content[..size], rest);
      assert content[..size] + content[size..] == content;
    }
  }

  /** No piece is longer than `size`, and only an empty answer has an empty one. */
  lemma {:induction false} PiecesAreSmall(content: string, size: nat)
    requires size > 0
    ensures forall p <- Pieces(content, size) :: |p| <= size && (content != "" ==> p != "")
  {
    if |content| > size {
      PiecesAreSmall(content[size..], size);
    }
  }

  /** They are the answer cut every `size` characters: all but the last are full, and there are no more than
      it takes, but at least one. */
  lemma PiecesAreSlices(content: string, size: nat, i: nat)
    requires size > 0 && i < |Pieces(content, size)|
    ensures 0 <= i * size <= |content| && (i > 0 ==> i * size < |content|)
    ensures var start := i * size;
            if i + 1 < |Pieces(content, size)| then
              start + size < |content| && Pieces(content, size)[i] == content[start..start + size]
            else
              |content| <= start + size && Pieces(content, size)[i] == content[start..]
  {
    TimesIsNat(i, size);
    PieceAt(content, size, i, i * size);
  }

  lemma TimesIsNat(i: nat, size: nat)
    ensures i * size >= 0
  {
  }

  lemma {:induction false} PieceAt(content: string, size: nat, i: nat, start: nat)
    requires size > 0 && i < |Pieces(content, size)| && start == i * size
    ensures start <= |content| && (i > 0 ==> start < |content|)
    ensures if i + 1 < |Pieces(content, size)| then
              start + size < |content| && Pieces(content, size)[i] == content[start..start + size]
            else
              |content| <= start + size && Pieces(content, size)[i] == content[start..]
    decreases |content|
  {
    if i > 0 {
      var rest := content[size..];
      OneTimeLess(i, size);
      PieceAt(rest, size, i - 1, start - size);
      assert rest[start - size..] == content[start..];
    } else {
      assert content[0..] == content;
    }
  }

  lemma OneTimeLess(i: nat, size: nat)
    requires i > 0
    ensures i * size == (i - 1) * size + size && (i - 1) * size >= 0
  {
  }

  lemma {:induction false} DeliveredIsJoined(first: Delta, deltas: seq<Delta>, pieces: seq<string>)
    requires |pieces| == |deltas| + 1 && pieces[0] == first.content
    requires forall i :: 0 <= i < |deltas| ==> deltas[i].content == pieces[i + 1]
    ensures Delivered(first, deltas) == Joined(pieces)
  {
    if deltas == [] {
      assert Front(pieces) == [];
    } else {
      DeliveredIsJoined(first, Front(deltas), Front(pieces));
    }
  }

  /** Piece by piece the answer's text, as the answer's model, and at the end, and only there, its usage and
      what it finished for. */
  lemma ChunkedPieceByPiece(r: Response, size: nat, i: nat)
    requires size > 0 && i <= |Pieces(r.content, size)|
    ensures var (first, rest) := Chunked(r, size);
            var all, n := [first] + rest, |Pieces(r.content, size)|;
            && |all| == n + 1
            && all[i] == if i < n then Delta(Pieces(r.content, size)[i], None, None, r.model)
                         else Delta("", Some(r.finishReason), Some(r.usage), r.model)
  {
  }

  /** A synthesized stream relayed to its end delivers the answer and is billed exactly what the
      same answer costs when it is not streamed. */
  lemma ChunkedStreamIsTheAnswer(r: Response, size: nat, prompt: nat)
    requires size > 0
    ensures var (first, rest) := Chunked(r, size);
            && Delivered(first, rest) == r.content
            && FinalUsage(prompt, first, rest) == r.usage
            && FinishReason(first, rest) == r.finishReason
  {
    var (first, rest) := Chunked(r, size);
    var pieces := Pieces(r.content, size);
    PiecesJoinBack(r.content, size);
    DeliveredIsJoined(first, Front(rest), pieces);
    assert Last(rest).content == "" && r.content + "" == r.content;
  }
}
