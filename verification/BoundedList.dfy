/** The plain list the cache is meant to be: entries in order of age, with an age limit and a cap. */
module BoundedList {

  /** An entry's place in the recency order: `semcache:z:{ns}` scores an id by its creation time and
      orders equal scores by id. */
  datatype Member = Member(id: nat, score: real)

  predicate Older(a: Member, b: Member) {
    a.score < b.score || (a.score == b.score && a.id < b.id)
  }

  ghost predicate Sorted(h: seq<Member>) {
    forall i, j :: 0 <= i < j < |h| ==> Older(h[i], h[j])
  }

  ghost predicate DistinctIds(h: seq<Member>) {
    forall i, j :: 0 <= i < j < |h| ==> h[i].id != h[j].id
  }

  /** Where `x` belongs: after everything older. */
  function Position(h: seq<Member>, x: Member): (p: nat)
    ensures p <= |h|
    ensures p < |h| ==> !Older(h[p], x)
    ensures p > 0 ==> Older(h[p - 1], x)
  {
    if h == [] then 0
    else if Older(h[|h| - 1], x) then |h|
    else Position(h[..|h| - 1], x)
  }

  /** ZADD of a new member. */
  function Insert(h: seq<Member>, x: Member): seq<Member> {
    var p := Position(h, x);
    h[..p] + [x] + h[p..]
  }

  predicate Expired(m: Member, ttl: nat, now: real) {
    m.score + ttl as real <= now
  }

  /** How many members at the old end are over the age limit: ZREMRANGEBYSCORE -inf now-ttl. */
  function ExpiredPrefix(h: seq<Member>, ttl: nat, now: real): (k: nat)
    ensures k <= |h|
    ensures forall i :: 0 <= i < k ==> Expired(h[i], ttl, now)
    ensures k < |h| ==> !Expired(h[k], ttl, now)
  {
    if h == [] || !Expired(h[0], ttl, now) then 0 else 1 + ExpiredPrefix(h[1..], ttl, now)
  }

  function Excess(n: nat, cap: nat): (e: nat)
    ensures e <= n
  {
    if n > cap then n - cap else 0
  }

  /** The index of the oldest member that is neither over age nor beyond the cap. */
  function FirstKept(h: seq<Member>, ttl: nat, cap: nat, now: real): (k: nat)
    ensures k <= |h|
  {
    var e := ExpiredPrefix(h, ttl, now);
    if e >= Excess(|h|, cap) then e else Excess(|h|, cap)
  }

  /** The list: the newest `cap` members of everything ever added, minus those over age. */
  function Kept(h: seq<Member>, ttl: nat, cap: nat, now: real): seq<Member> {
    h[FirstKept(h, ttl, cap, now)..]
  }

  lemma PositionSplits(h: seq<Member>, x: Member)
    requires Sorted(h)
    ensures forall i :: 0 <= i < |h| ==> (Older(h[i], x) <==> i < Position(h, x))
  {
    var p := Position(h, x);
    forall i | 0 <= i < |h|
      ensures Older(h[i], x) <==> i < p
    {
      if i < p {
        assert h[i] == h[p - 1] || Older(h[i], h[p - 1]);
      } else {
        assert h[i] == h[p] || Older(h[p], h[i]);
      }
    }
  }

  lemma PositionIs(h: seq<Member>, x: Member, p: nat)
    requires Sorted(h) && p <= |h|
    requires forall i :: 0 <= i < |h| ==> (Older(h[i], x) <==> i < p)
    ensures Position(h, x) == p
  {
    PositionSplits(h, x);
    var q := Position(h, x);
    var low := if p < q then p else q;
    assert low < |h| ==> (Older(h[low], x) <==> low < p);
  }

  lemma InsertKeepsOrder(h: seq<Member>, x: Member)
    requires Sorted(h) && DistinctIds(h) && forall m <- h :: m.id != x.id
    ensures Sorted(Insert(h, x)) && DistinctIds(Insert(h, x))
  {
    var p, all := Position(h, x), Insert(h, x);
    PositionSplits(h, x);
    forall i, j | 0 <= i < j < |all|
      ensures Older(all[i], all[j]) && all[i].id != all[j].id
    {
      var a, b := if i < p then i else i - 1, if j < p then j else j - 1;
      if i != p {
        assert all[i] == h[a];
      }
      if j != p {
        assert all[j] == h[b];
      }
    }
  }

  /** A cut that dropped only what is over age or beyond the cap. */
  predicate GoodCut(h: seq<Member>, c: nat, ttl: nat, cap: nat, now: real) {
    Excess(|h|, cap) <= c <= FirstKept(h, ttl, cap, now)
  }

  lemma ExpiredPrefixSplits(h: seq<Member>, ttl: nat, now: real)
    requires Sorted(h)
    ensures forall i :: 0 <= i < |h| ==> (Expired(h[i], ttl, now) <==> i < ExpiredPrefix(h, ttl, now))
  {
    var e := ExpiredPrefix(h, ttl, now);
    forall i | e <= i < |h|
      ensures !Expired(h[i], ttl, now)
    {
      assert h[i] == h[e] || Older(h[e], h[i]);
    }
  }

  lemma ExpiredPrefixIs(h: seq<Member>, ttl: nat, now: real, k: nat)
    requires Sorted(h) && k <= |h|
    requires forall i :: 0 <= i < |h| ==> (Expired(h[i], ttl, now) <==> i < k)
    ensures ExpiredPrefix(h, ttl, now) == k
  {
    var e := ExpiredPrefix(h, ttl, now);
    var low := if e < k then e else k;
    assert low < |h| ==> (Expired(h[low], ttl, now) <==> low < k);
  }

  lemma KeptIsExactly(h: seq<Member>, ttl: nat, cap: nat, now: real, i: nat)
    requires Sorted(h) && i < |h|
    ensures i >= FirstKept(h, ttl, cap, now) <==> !Expired(h[i], ttl, now) && |h| - i <= cap
  {
    ExpiredPrefixSplits(h, ttl, now);
  }

  /** How many members are newer: added later, or at the same moment under a higher id. */
  function NewerThan(h: seq<Member>, m: Member): nat {
    if h == [] then 0
    else
      var x := h[|h| - 1];
      NewerThan(h[..|h| - 1], m) + if x.score > m.score || (x.score == m.score && x.id > m.id) then 1 else 0
  }

  lemma {:induction false} NewerIsLater(h: seq<Member>, i: nat, n: nat)
    requires Sorted(h) && i < |h| && n <= |h|
    ensures NewerThan(h[..n], h[i]) == if n <= i + 1 then 0 else n - 1 - i
  {
    if n > 0 {
      NewerIsLater(h, i, n - 1);
      assert h[..n][..n - 1] == h[..n - 1];
      assert n - 1 < i ==> Older(h[n - 1], h[i]);
      assert n - 1 > i ==> Older(h[i], h[n - 1]);
    }
  }

  /** The list, told without its order: what is within the age limit, if fewer than `cap` are newer. */
  lemma KeptAreNewest(h: seq<Member>, ttl: nat, cap: nat, now: real, i: nat)
    requires Sorted(h) && i < |h|
    ensures i >= FirstKept(h, ttl, cap, now) <==> now - h[i].score < ttl as real && NewerThan(h, h[i]) < cap
  {
    KeptIsExactly(h, ttl, cap, now, i);
    NewerIsLater(h, i, |h|);
    assert h[..|h|] == h;
  }

  /** Time only takes away. */
  lemma GoodCutLater(h: seq<Member>, c: nat, ttl: nat, cap: nat, now: real, later: real)
    requires Sorted(h) && GoodCut(h, c, ttl, cap, now) && now <= later
    ensures GoodCut(h, c, ttl, cap, later)
  {
    ExpiredPrefixSplits(h, ttl, later);
    var e, e' := ExpiredPrefix(h, ttl, now), ExpiredPrefix(h, ttl, later);
    assert e > 0 ==> Expired(h[e - 1], ttl, now) && Expired(h[e - 1], ttl, later);
  }

  lemma KeptOfSuffix(h: seq<Member>, c: nat, ttl: nat, cap: nat, now: real)
    requires Sorted(h) && c <= FirstKept(h, ttl, cap, now)
    ensures Kept(h[c..], ttl, cap, now) == Kept(h, ttl, cap, now)
  {
    var s, e := h[c..], ExpiredPrefix(h, ttl, now);
    ExpiredPrefixSplits(h, ttl, now);
    ExpiredPrefixIs(s, ttl, now, if e > c then e - c else 0);
  }

  lemma PositionInSuffix(h: seq<Member>, c: nat, x: Member)
    requires Sorted(h) && c <= |h|
    ensures Position(h[c..], x) == if c <= Position(h, x) then Position(h, x) - c else 0
  {
    var p, s := Position(h, x), h[c..];
    var q := if c <= p then p - c else 0;
    forall i | 0 <= i < |s|
      ensures Older(s[i], x) <==> i < q
    {
      PositionSplits(h, x);
      assert s[i] == h[c + i];
    }
    PositionIs(s, x, q);
  }

  lemma InsertAt(h: seq<Member>, c: nat, p: nat, x: Member)
    requires c <= p <= |h|
    ensures h[c..][..p - c] + [x] + h[c..][p - c..] == (h[..p] + [x] + h[p..])[c..]
  {
  }

  lemma InsertIntoSuffix(h: seq<Member>, c: nat, x: Member)
    requires Sorted(h) && c <= |h|
    ensures var p := Position(h, x);
            Insert(h[c..], x) == if c <= p then Insert(h, x)[c..] else [x] + h[c..]
  {
    hide Sorted, Position;
    PositionInSuffix(h, c, x);
    if c <= Position(h, x) {
      InsertAt(h, c, Position(h, x), x);
    } else {
      assert h[c..][..0] + [x] + h[c..][0..] == [x] + h[c..];
    }
  }

  /** A newer-or-equal entry put into the list that was already cut leaves the same list as if
      nothing had ever been cut. */
  lemma KeptAfterInsert(h: seq<Member>, c: nat, x: Member, ttl: nat, cap: nat)
    requires Sorted(h) && DistinctIds(h) && (forall m <- h :: m.id != x.id && m.score <= x.score)
    requires GoodCut(h, c, ttl, cap, x.score)
    ensures Kept(Insert(h[c..], x), ttl, cap, x.score) == Kept(Insert(h, x), ttl, cap, x.score)
  {
    InsertKeepsOrder(h, x);
    InsertIntoSuffix(h, c, x);
    if c <= Position(h, x) {
      CutStaysGood(h, c, x, ttl, cap);
      KeptOfSuffix(Insert(h, x), c, ttl, cap, x.score);
    } else {
      SuffixAfter(h, c, x);
      CutPastNewest(h, c, x, ttl, cap);
    }
  }

  lemma SuffixAfter(h: seq<Member>, c: nat, x: Member)
    requires Sorted(h) && (forall m <- h :: m.id != x.id) && Position(h, x) < c <= |h|
    ensures Sorted([x] + h[c..])
  {
    PositionSplits(h, x);
    assert forall i :: c <= i < |h| ==> Older(x, h[i]);
  }

  /** The new entry ties with entries at the old end of a full list: it is the one that has to go. */
  lemma CutPastNewest(h: seq<Member>, c: nat, x: Member, ttl: nat, cap: nat)
    requires Sorted(h) && (forall m <- h :: m.id != x.id && m.score <= x.score)
    requires GoodCut(h, c, ttl, cap, x.score) && c > Position(h, x)
    requires Sorted(Insert(h, x)) && Sorted([x] + h[c..])
    ensures Kept([x] + h[c..], ttl, cap, x.score) == Kept(Insert(h, x), ttl, cap, x.score)
  {
    hide Sorted, Insert, Kept, ExpiredPrefix, FirstKept, Excess;
    if ttl == 0 {
      NothingIsKept(h, c, x, cap);
    } else {
      NothingExpiredFrom(h, x, ttl, h[c..]);
      OneTooMany(h, c, x, ttl, cap);
    }
  }

  /** With no lifetime at all nothing is ever kept. */
  lemma NothingIsKept(h: seq<Member>, c: nat, x: Member, cap: nat)
    requires (forall m <- h :: m.score <= x.score) && c <= |h|
    requires Sorted(Insert(h, x)) && Sorted([x] + h[c..])
    ensures Kept([x] + h[c..], 0, cap, x.score) == Kept(Insert(h, x), 0, cap, x.score)
  {
    hide Sorted, Position, ExpiredPrefix;
    AllExpired(Insert(h, x), x.score);
    AllExpired([x] + h[c..], x.score);
  }

  lemma OneTooMany(h: seq<Member>, c: nat, x: Member, ttl: nat, cap: nat)
    requires GoodCut(h, c, ttl, cap, x.score) && c > Position(h, x)
    requires ExpiredPrefix(h, ttl, x.score) <= Position(h, x)
    requires ExpiredPrefix(Insert(h, x), ttl, x.score) <= Position(h, x)
    requires ExpiredPrefix([x] + h[c..], ttl, x.score) == 0
    ensures Kept([x] + h[c..], ttl, cap, x.score) == Kept(Insert(h, x), ttl, cap, x.score)
  {
    hide Position, ExpiredPrefix;
    InsertTail(h, x, c);
    assert ([x] + h[c..])[1..] == h[c..];
  }

  lemma InsertTail(h: seq<Member>, x: Member, c: nat)
    requires Position(h, x) <= c <= |h|
    ensures Insert(h, x)[c + 1..] == h[c..]
  {
  }

  lemma AllExpired(h: seq<Member>, now: real)
    requires Sorted(h) && forall m <- h :: m.score <= now
    ensures ExpiredPrefix(h, 0, now) == |h|
  {
    ExpiredPrefixIs(h, 0, now, |h|);
  }

  lemma NothingExpiredFrom(h: seq<Member>, x: Member, ttl: nat, tail: seq<Member>)
    requires Sorted(h) && (forall m <- h :: m.id != x.id && m.score <= x.score) && ttl > 0
    requires Position(h, x) < |h|
    ensures ExpiredPrefix(h, ttl, x.score) <= Position(h, x)
    ensures ExpiredPrefix(Insert(h, x), ttl, x.score) <= Position(h, x)
    ensures ExpiredPrefix([x] + tail, ttl, x.score) == 0
  {
    var p, all := Position(h, x), Insert(h, x);
    assert all[p] == x && !Expired(x, ttl, x.score);
    assert h[p].score == x.score && !Expired(h[p], ttl, x.score);
  }

  lemma CutStaysGood(h: seq<Member>, c: nat, x: Member, ttl: nat, cap: nat)
    requires Sorted(h) && Sorted(Insert(h, x)) && c <= Position(h, x)
    requires c <= FirstKept(h, ttl, cap, x.score)
    ensures c <= FirstKept(Insert(h, x), ttl, cap, x.score)
  {
    var e, all := ExpiredPrefix(h, ttl, x.score), Insert(h, x);
    if c <= e {
      forall i | 0 <= i < c
        ensures Expired(all[i], ttl, x.score)
      {
        assert all[i] == h[i];
      }
    }
  }
}
