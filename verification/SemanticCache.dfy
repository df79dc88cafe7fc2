/** The semantic response cache of app/cache/semantic_cache.py over the brute-force index.

    The Redis keys of one namespace are a `Space`: its entry hashes and its recency zset, each key
    with a TTL of its own. The ghost `past` holds everything ever stored (and not purged) in a
    namespace; the invariant says that what the keys show is the BoundedList of that past. */
module SemanticCache {
  import opened Wrappers
  import opened BoundedList

  datatype Message = Message(role: string, content: string)

  datatype ChatRequest = ChatRequest(model: string, messages: seq<Message>, temperature: Option<real>,
                                     maxTokens: Option<nat>)

  /** What `namespace_for` hashes. The hash is taken to separate whatever this record separates. */
  datatype Namespace = Namespace(tenant: string, route: string, temperature: Option<real>, maxTokens: Option<nat>,
                                 context: seq<Message>, lastRole: string)

  function NamespaceFor(tenant: string, r: ChatRequest): Namespace
    requires r.messages != []
  {
    var last := |r.messages| - 1;
    Namespace(tenant, r.model, r.temperature, r.maxTokens, r.messages[..last], r.messages[last].role)
  }

  function Asking(r: ChatRequest, question: string): ChatRequest
    requires r.messages != []
  {
    var last := |r.messages| - 1;
    r.(messages := r.messages[last := Message(r.messages[last].role, question)])
  }

  /** Two requests share a namespace exactly when they are one tenant's and differ in nothing but the
      text of the last message. */
  lemma OnlyTheQuestionMayDiffer(tenant: string, r: ChatRequest, tenant': string, r': ChatRequest)
    requires r.messages != [] && r'.messages != []
    ensures NamespaceFor(tenant, r) == NamespaceFor(tenant', r')
            <==> tenant == tenant' && exists question :: r' == Asking(r, question)
  {
    var last, last' := |r.messages| - 1, |r'.messages| - 1;
    if NamespaceFor(tenant, r) == NamespaceFor(tenant', r') {
      var question := r'.messages[last'].content;
      assert r.messages[..last] == r'.messages[..last'];
      assert r'.messages == r'.messages[..last'] + [r'.messages[last']];
      assert r'.messages == Asking(r, question).messages;
      assert r' == Asking(r, question);
    }
  }

  type Vec = seq<real>

  datatype Completion = Completion(content: string, model: string, finishReason: string, promptTokens: nat,
                                   completionTokens: nat, deployment: string, cost: real)

  /** A stored answer with the embedding of the question it answered. */
  datatype Content = Content(vec: Vec, payload: Completion)

  datatype Entry = Entry(content: Content, created: real, until: real)

  datatype ZSet = ZSet(members: seq<Member>, until: real)

  /** `semcache:e:{ns}:*` and `semcache:z:{ns}`. */
  datatype Space = Space(hashes: map<nat, Entry>, zset: Option<ZSet>)

  /** `semcache:t:{tenant}`. */
  datatype TenantSet = TenantSet(names: set<Namespace>, until: real)

  /** Everything stored in a namespace, oldest first, and what it was. */
  datatype Past = Past(log: seq<Member>, contents: map<nat, Content>)

  datatype Limits = Limits(ttl: nat, cap: nat)

  datatype Hit = Hit(completion: Completion, similarity: real)

  const NO_SPACE := Space(map[], None)
  const NO_PAST := Past([], map[])

  // ------------------------------------------------------------------ one namespace

  /** The list a namespace is meant to be. */
  function List(p: Past, k: Limits, now: real): seq<Member> {
    Kept(p.log, k.ttl, k.cap, now)
  }

  /** The zset as stored, and as Redis shows it at `now`. */
  function Members(sp: Space): seq<Member> {
    if sp.zset.Some? then sp.zset.value.members else []
  }

  function Shown(sp: Space, now: real): seq<Member> {
    if sp.zset.Some? && now < sp.zset.value.until then sp.zset.value.members else []
  }

  predicate HasHash(sp: Space, id: nat, now: real) {
    id in sp.hashes && now < sp.hashes[id].until
  }

  ghost predicate LogOk(p: Past, clock: real) {
    && Sorted(p.log) && DistinctIds(p.log)
    && forall m <- p.log :: m.score <= clock && m.id in p.contents
  }

  /** The zset is the log from some cut on, and outlives everything in it. */
  ghost predicate ZSetOk(p: Past, sp: Space, k: Limits, clock: real) {
    var n := |Members(sp)|;
    && n <= |p.log| && Members(sp) == p.log[|p.log| - n..]
    && GoodCut(p.log, |p.log| - n, k.ttl, k.cap, clock)
    && (sp.zset.Some? ==> forall m <- p.log :: m.score + k.ttl as real <= sp.zset.value.until)
  }

  /** Every member has its hash, and a hash that has not expired is a member's. */
  ghost predicate HashesMatch(contents: map<nat, Content>, hashes: map<nat, Entry>, members: seq<Member>,
                              ttl: nat, clock: real) {
    && (forall m <- members ::
          m.id in hashes && m.id in contents
          && hashes[m.id] == Entry(contents[m.id], m.score, m.score + ttl as real))
    && (forall id <- hashes :: hashes[id].until > clock ==> Member(id, hashes[id].created) in members)
    && hashes.Keys <= contents.Keys
  }

  ghost predicate HashesOk(p: Past, sp: Space, k: Limits, clock: real) {
    HashesMatch(p.contents, sp.hashes, Members(sp), k.ttl, clock)
  }

  ghost predicate SpaceOk(p: Past, sp: Space, k: Limits, clock: real) {
    LogOk(p, clock) && ZSetOk(p, sp, k, clock) && HashesOk(p, sp, k, clock)
  }

  lemma SpaceOkLater(p: Past, sp: Space, k: Limits, clock: real, now: real)
    requires SpaceOk(p, sp, k, clock) && clock <= now
    ensures SpaceOk(p, sp, k, now)
  {
    GoodCutLater(p.log, |p.log| - |Members(sp)|, k.ttl, k.cap, clock, now);
  }

  lemma NothingBeyondCap(s: seq<Member>, k: Limits, now: real)
    requires |s| <= k.cap
    ensures Kept(s, k.ttl, k.cap, now) == s[ExpiredPrefix(s, k.ttl, now)..]
  {
  }

  lemma YoungMembers(s: seq<Member>, ttl: nat, now: real)
    requires Sorted(s)
    ensures forall m :: m in s[ExpiredPrefix(s, ttl, now)..] <==> m in s && !Expired(m, ttl, now)
  {
    var e := ExpiredPrefix(s, ttl, now);
    ExpiredPrefixSplits(s, ttl, now);
    hide *;
    forall m | m in s && !Expired(m, ttl, now)
      ensures m in s[e..]
    {
      var i :| 0 <= i < |s| && s[i] == m;
      assert s[e..][i - e] == m;
    }
    forall m | m in s[e..]
      ensures m in s && !Expired(m, ttl, now)
    {
      var i :| 0 <= i < |s[e..]| && s[e..][i] == m;
      assert s[e + i] == m;
    }
  }

  lemma ZSetInOrder(p: Past, sp: Space, k: Limits, now: real)
    requires LogOk(p, now) && ZSetOk(p, sp, k, now)
    ensures |Members(sp)| <= k.cap && Sorted(Members(sp))
  {
  }

  /** The list is what is left of the zset when the members over age are dropped. */
  lemma ListOfZSet(p: Past, sp: Space, k: Limits, now: real)
    requires LogOk(p, now) && ZSetOk(p, sp, k, now)
    ensures |Members(sp)| <= k.cap && Sorted(Members(sp))
    ensures List(p, k, now) == Members(sp)[ExpiredPrefix(Members(sp), k.ttl, now)..]
    ensures forall m :: m in List(p, k, now) <==> m in Members(sp) && !Expired(m, k.ttl, now)
  {
    ZSetInOrder(p, sp, k, now);
    hide Sorted, Expired, FirstKept, ExpiredPrefix;
    KeptOfSuffix(p.log, |p.log| - |Members(sp)|, k.ttl, k.cap, now);
    NothingBeyondCap(Members(sp), k, now);
    YoungMembers(Members(sp), k.ttl, now);
  }

  /** So is what Redis shows of it, also when the zset's own TTL has run out. */
  lemma ShownIsList(p: Past, sp: Space, k: Limits, now: real)
    requires SpaceOk(p, sp, k, now)
    ensures |Shown(sp, now)| <= k.cap
    ensures Shown(sp, now)[ExpiredPrefix(Shown(sp, now), k.ttl, now)..] == List(p, k, now)
  {
    ListOfZSet(p, sp, k, now);
    if sp.zset.Some? && sp.zset.value.until <= now {
      ExpiredPrefixIs(Members(sp), k.ttl, now, |Members(sp)|);
    }
  }

  /** The hashes that have not expired are exactly the list's. */
  lemma HashesAreList(p: Past, sp: Space, k: Limits, now: real, id: nat)
    requires SpaceOk(p, sp, k, now)
    ensures HasHash(sp, id, now) <==> exists m :: m in List(p, k, now) && m.id == id
    ensures HasHash(sp, id, now) ==> Member(id, sp.hashes[id].created) in List(p, k, now)
  {
    ListOfZSet(p, sp, k, now);
    hide List, ZSetOk, LogOk, Sorted;
  }

  /** ZREM of the members whose hash is gone. */
  function Pruned(sp: Space, kept: seq<Member>): Space
    requires sp.zset.Some?
  {
    sp.(zset := if kept == [] then None else Some(ZSet(kept, sp.zset.value.until)))
  }

  lemma PrunedZSet(p: Past, sp: Space, k: Limits, now: real)
    requires LogOk(p, now) && ZSetOk(p, sp, k, now) && sp.zset.Some?
    ensures Members(Pruned(sp, List(p, k, now))) == List(p, k, now)
    ensures ZSetOk(p, Pruned(sp, List(p, k, now)), k, now)
    ensures forall m <- List(p, k, now) :: m in Members(sp)
  {
    hide Sorted, DistinctIds, Expired, ExpiredPrefix;
    ListOfZSet(p, sp, k, now);
  }

  lemma PruningChangesNothing(p: Past, sp: Space, k: Limits, now: real)
    requires SpaceOk(p, sp, k, now) && sp.zset.Some? && now < sp.zset.value.until
    ensures SpaceOk(p, Pruned(sp, List(p, k, now)), k, now)
  {
    PrunedZSet(p, sp, k, now);
    forall id | id in sp.hashes && sp.hashes[id].until > now
      ensures Member(id, sp.hashes[id].created) in List(p, k, now)
    {
      HashesAreList(p, sp, k, now, id);
    }
    hide List, ZSetOk;
  }

  function Ids(s: seq<Member>): set<nat> {
    set m <- s :: m.id
  }

  /** What the pipeline of `store` and the DEL after it leave of a namespace. */
  function AfterStore(sp: Space, x: Member, content: Content, k: Limits): Space {
    var added := Insert(Shown(sp, x.score), x);
    var young := added[ExpiredPrefix(added, k.ttl, x.score)..];
    var excess := Excess(|young|, k.cap);
    Space(sp.hashes[x.id := Entry(content, x.score, x.score + k.ttl as real)] - Ids(young[..excess]),
          if young[excess..] == [] then None else Some(ZSet(young[excess..], x.score + k.ttl as real)))
  }

  function PastWith(p: Past, x: Member, content: Content): Past {
    Past(Insert(p.log, x), p.contents[x.id := content])
  }

  lemma YoungestAreKept(s: seq<Member>, k: Limits, now: real)
    ensures var young := s[ExpiredPrefix(s, k.ttl, now)..];
            young[Excess(|young|, k.cap)..] == Kept(s, k.ttl, k.cap, now)
  {
  }

  lemma ShownInsert(p: Past, sp: Space, x: Member, k: Limits)
    requires SpaceOk(p, sp, k, x.score) && x.id !in p.contents
    ensures Kept(Insert(Shown(sp, x.score), x), k.ttl, k.cap, x.score) == Kept(Insert(p.log, x), k.ttl, k.cap, x.score)
  {
    hide Insert, Kept, Sorted, DistinctIds;
    if sp.zset.Some? && sp.zset.value.until <= x.score {
      ExpiredPrefixIs(p.log, k.ttl, x.score, |p.log|);
      assert p.log[|p.log|..] == [];
      KeptAfterInsert(p.log, |p.log|, x, k.ttl, k.cap);
    } else {
      KeptAfterInsert(p.log, |p.log| - |Members(sp)|, x, k.ttl, k.cap);
    }
  }

  lemma StoreKeepsTheList(p: Past, sp: Space, x: Member, content: Content, k: Limits)
    requires SpaceOk(p, sp, k, x.score) && x.id !in p.contents
    ensures Members(AfterStore(sp, x, content, k)) == List(PastWith(p, x, content), k, x.score)
  {
    YoungestAreKept(Insert(Shown(sp, x.score), x), k, x.score);
    ShownInsert(p, sp, x, k);
  }

  lemma InsertMembers(h: seq<Member>, x: Member)
    ensures forall m :: m in Insert(h, x) <==> m == x || m in h
  {
    var p, all := Position(h, x), Insert(h, x);
    assert h == h[..p] + h[p..];
    assert forall m :: m in h <==> m in h[..p] || m in h[p..];
    assert all[p] == x;
  }

  lemma StoreKeepsLogOk(p: Past, x: Member, content: Content)
    requires LogOk(p, x.score) && x.id !in p.contents
    ensures LogOk(PastWith(p, x, content), x.score)
  {
    InsertKeepsOrder(p.log, x);
    InsertMembers(p.log, x);
    hide Insert, Sorted, DistinctIds;
  }

  lemma ListIsGoodZSet(p: Past, sp: Space, k: Limits, now: real)
    requires LogOk(p, now) && Members(sp) == List(p, k, now)
    requires sp.zset.Some? ==> now + k.ttl as real <= sp.zset.value.until
    ensures ZSetOk(p, sp, k, now)
  {
  }

  lemma StoreKeepsZSetOk(p: Past, sp: Space, x: Member, content: Content, k: Limits)
    requires SpaceOk(p, sp, k, x.score) && x.id !in p.contents
    ensures LogOk(PastWith(p, x, content), x.score)
    ensures ZSetOk(PastWith(p, x, content), AfterStore(sp, x, content, k), k, x.score)
  {
    var p', sp' := PastWith(p, x, content), AfterStore(sp, x, content, k);
    assert sp'.zset.Some? ==> sp'.zset.value.until == x.score + k.ttl as real;
    hide AfterStore, PastWith, List;
    StoreKeepsLogOk(p, x, content);
    StoreKeepsTheList(p, sp, x, content, k);
    ListIsGoodZSet(p', sp', k, x.score);
  }

  lemma IdsApart(s: seq<Member>, n: nat)
    requires DistinctIds(s) && n <= |s|
    ensures forall m <- s[n..] :: m.id !in Ids(s[..n])
  {
    forall m | m in s[n..]
      ensures m.id !in Ids(s[..n])
    {
      var i :| 0 <= i < |s[n..]| && s[n..][i] == m;
      assert s[n + i] == m;
    }
  }

  /** Of the added list: what is kept was not evicted, what is neither over age nor evicted is kept. */
  lemma KeptOrGone(added: seq<Member>, k: Limits, now: real)
    requires Sorted(added) && DistinctIds(added)
    ensures var young := added[ExpiredPrefix(added, k.ttl, now)..];
            var excess := Excess(|young|, k.cap);
            && (forall m <- young[excess..] :: m in added && m.id !in Ids(young[..excess]))
            && (forall m <- added :: !Expired(m, k.ttl, now) && m.id !in Ids(young[..excess]) ==> m in young[excess..])
  {
    var e := ExpiredPrefix(added, k.ttl, now);
    assert forall m <- added[..e] :: Expired(m, k.ttl, now);
    var young := added[e..];
    var excess := Excess(|young|, k.cap);
    assert DistinctIds(young);
    IdsApart(young, excess);
    InParts(added, e, excess);
  }

  lemma InParts(s: seq<Member>, e: nat, n: nat)
    requires e + n <= |s|
    ensures forall m :: m in s <==> m in s[..e] || m in s[e..][..n] || m in s[e..][n..]
    ensures forall m <- s[e..][..n] :: m.id in Ids(s[e..][..n])
  {
    assert s == s[..e] + (s[e..][..n] + s[e..][n..]);
  }

  /** The same, with the new member told apart from the ones the zset showed. */
  lemma KeptOfInsert(shown: seq<Member>, x: Member, k: Limits, young: seq<Member>, excess: nat, evicted: set<nat>)
    requires Sorted(shown) && DistinctIds(shown) && forall m <- shown :: m.id != x.id
    requires var added := Insert(shown, x); young == added[ExpiredPrefix(added, k.ttl, x.score)..]
    requires excess == Excess(|young|, k.cap) && evicted == Ids(young[..excess])
    ensures forall m <- young[excess..] :: (m == x || m in shown) && m.id !in evicted
    ensures forall m :: (m == x || m in shown) && !Expired(m, k.ttl, x.score) && m.id !in evicted ==>
            m in young[excess..]
  {
    InsertKeepsOrder(shown, x);
    InsertMembers(shown, x);
    hide Insert, Sorted, DistinctIds, Expired;
    KeptOrGone(Insert(shown, x), k, x.score);
  }

  /** The bookkeeping of `store` on the hashes alone. */
  lemma HashesStep(contents: map<nat, Content>, hashes: map<nat, Entry>, shown: seq<Member>, kept: seq<Member>,
                   evicted: set<nat>, x: Member, content: Content, ttl: nat)
    requires hashes.Keys <= contents.Keys
    requires forall m <- shown ::
               m.id != x.id && m.id in hashes && hashes[m.id] == Entry(contents[m.id], m.score, m.score + ttl as real)
    requires forall id <- hashes :: hashes[id].until > x.score ==>
               Member(id, hashes[id].created) in shown && hashes[id].until == hashes[id].created + ttl as real
    requires forall m <- kept :: (m == x || m in shown) && m.id !in evicted
    requires forall m :: (m == x || m in shown) && !Expired(m, ttl, x.score) && m.id !in evicted ==> m in kept
    ensures HashesMatch(contents[x.id := content],
                        hashes[x.id := Entry(content, x.score, x.score + ttl as real)] - evicted, kept, ttl, x.score)
  {
  }

  lemma StoreKeepsHashesOk(p: Past, sp: Space, x: Member, content: Content, k: Limits)
    requires SpaceOk(p, sp, k, x.score) && x.id !in p.contents
    ensures HashesOk(PastWith(p, x, content), AfterStore(sp, x, content, k), k, x.score)
  {
    hide SpaceOk, HashesMatch, Insert, Shown, Sorted, DistinctIds, ExpiredPrefix, Excess, Expired, Ids;
    var shown := Shown(sp, x.score);
    var added := Insert(shown, x);
    var young := added[ExpiredPrefix(added, k.ttl, x.score)..];
    var excess := Excess(|young|, k.cap);
    var evicted := Ids(young[..excess]);
    ShownOrder(p, sp, k, x);
    ShownHashes(p, sp, k, x.score);
    KeptOfInsert(shown, x, k, young, excess, evicted);
    HashesStep(p.contents, sp.hashes, shown, young[excess..], evicted, x, content, k.ttl);
  }

  lemma ShownOrder(p: Past, sp: Space, k: Limits, x: Member)
    requires SpaceOk(p, sp, k, x.score)
    ensures Sorted(Shown(sp, x.score)) && DistinctIds(Shown(sp, x.score))
    ensures sp.hashes.Keys <= p.contents.Keys
    ensures x.id !in p.contents ==> forall m <- Shown(sp, x.score) :: m.id != x.id
  {
  }

  lemma ShownHashes(p: Past, sp: Space, k: Limits, now: real)
    requires SpaceOk(p, sp, k, now)
    ensures forall m <- Shown(sp, now) ::
              m.id in sp.hashes && sp.hashes[m.id] == Entry(p.contents[m.id], m.score, m.score + k.ttl as real)
    ensures forall id <- sp.hashes :: sp.hashes[id].until > now ==>
              && Member(id, sp.hashes[id].created) in Shown(sp, now)
              && sp.hashes[id].until == sp.hashes[id].created + k.ttl as real
  {
    ShownIsList(p, sp, k, now);
    forall id | id in sp.hashes && sp.hashes[id].until > now
      ensures Member(id, sp.hashes[id].created) in Shown(sp, now)
    {
      HashesAreList(p, sp, k, now, id);
    }
  }

  /** `store` keeps the namespace in step with its past. */
  lemma StoreKeepsSpaceOk(p: Past, sp: Space, x: Member, content: Content, k: Limits)
    requires SpaceOk(p, sp, k, x.score) && x.id !in p.contents
    ensures SpaceOk(PastWith(p, x, content), AfterStore(sp, x, content, k), k, x.score)
  {
    hide LogOk, ZSetOk, HashesOk, PastWith, AfterStore;
    StoreKeepsZSetOk(p, sp, x, content, k);
    StoreKeepsHashesOk(p, sp, x, content, k);
  }

  // ------------------------------------------------------------------ the tenants' sets

  /** A namespace with anything left in it is listed for its tenant, for as long as anything is. */
  ghost predicate ListedIn(list: seq<Member>, ns: Namespace, tenants: map<string, TenantSet>, ttl: nat) {
    forall m <- list ::
      && ns.tenant in tenants && ns in tenants[ns.tenant].names
      && m.score + ttl as real <= tenants[ns.tenant].until
  }

  /** SADD and EXPIRE: an expired set is started anew. */
  function Enlisted(tenants: map<string, TenantSet>, ns: Namespace, ttl: nat, now: real): map<string, TenantSet> {
    var names := if ns.tenant in tenants && now < tenants[ns.tenant].until then tenants[ns.tenant].names else {};
    tenants[ns.tenant := TenantSet(names + {ns}, now + ttl as real)]
  }

  /** Starting the set anew forgets only namespaces with nothing left in them. */
  lemma EnlistingKeepsListed(list: seq<Member>, other: Namespace, ns: Namespace, tenants: map<string, TenantSet>,
                             ttl: nat, now: real)
    requires ListedIn(list, other, tenants, ttl) || other == ns
    requires forall m <- list :: m.score <= now && !Expired(m, ttl, now)
    ensures ListedIn(list, other, Enlisted(tenants, ns, ttl, now), ttl)
  {
  }

  lemma ListIsFresh(p: Past, sp: Space, k: Limits, now: real)
    requires SpaceOk(p, sp, k, now)
    ensures forall m <- List(p, k, now) :: m.score <= now && !Expired(m, k.ttl, now)
  {
    ListOfZSet(p, sp, k, now);
  }

  lemma ListShrinks(p: Past, k: Limits, now: real, later: real)
    requires Sorted(p.log) && now <= later
    ensures forall m <- List(p, k, later) :: m in List(p, k, now)
  {
    var c := FirstKept(p.log, k.ttl, k.cap, now);
    hide Sorted, ExpiredPrefix;
    GoodCutLater(p.log, c, k.ttl, k.cap, now, later);
    assert List(p, k, later) == List(p, k, now)[FirstKept(p.log, k.ttl, k.cap, later) - c..];
  }

  lemma ListedWhileAny(list: seq<Member>, ns: Namespace, tenants: map<string, TenantSet>, k: Limits, now: real)
    requires ListedIn(list, ns, tenants, k.ttl) && forall m <- list :: !Expired(m, k.ttl, now)
    ensures list != [] ==> ns.tenant in tenants && now < tenants[ns.tenant].until && ns in tenants[ns.tenant].names
  {
    if list != [] {
      assert !Expired(list[0], k.ttl, now);
    }
  }

  // ------------------------------------------------------------------ the scan of a lookup

  /** numpy's argmax over the newest-first scan: the most similar entry, the newest of equals. */
  function Nearest(members: seq<Member>, contents: map<nat, Content>, query: Vec, sim: (Vec, Vec) -> real)
    : (found: Option<Member>)
    requires forall m <- members :: m.id in contents
    ensures found.Some? ==> found.value in members
  {
    if members == [] then None
    else
      var newer := Nearest(members[1..], contents, query, sim);
      if newer.Some? && sim(contents[members[0].id].vec, query) <= sim(contents[newer.value.id].vec, query)
      then newer else Some(members[0])
  }

  /** Nothing in the list is more similar than what the scan comes back with, what is equally similar
      is older, and it comes back with something whenever the list is not empty. */
  lemma {:induction false} NearestIsMostSimilar(members: seq<Member>, contents: map<nat, Content>, query: Vec,
                                                sim: (Vec, Vec) -> real)
    requires Sorted(members) && forall m <- members :: m.id in contents
    ensures var found := Nearest(members, contents, query, sim);
            && (found.None? <==> members == [])
            && (found.Some? ==> forall m <- members ::
                  var s, best := sim(contents[m.id].vec, query), sim(contents[found.value.id].vec, query);
                  s < best || (s == best && (m == found.value || Older(m, found.value))))
  {
    if members != [] {
      NearestIsMostSimilar(members[1..], contents, query, sim);
      assert forall m <- members :: m == members[0] || m in members[1..];
    }
  }

  /** So a lookup that takes what the scan found if it is similar enough hits exactly when anything is. */
  lemma HitIffAnyReaches(members: seq<Member>, contents: map<nat, Content>, query: Vec, sim: (Vec, Vec) -> real,
                         threshold: real)
    requires Sorted(members) && forall m <- members :: m.id in contents
    ensures var found := Nearest(members, contents, query, sim);
            (found.Some? && sim(contents[found.value.id].vec, query) >= threshold)
            <==> exists m <- members :: sim(contents[m.id].vec, query) >= threshold
  {
    NearestIsMostSimilar(members, contents, query, sim);
  }

  lemma ScanReady(p: Past, sp: Space, k: Limits, now: real)
    requires SpaceOk(p, sp, k, now)
    ensures Sorted(Shown(sp, now))
    ensures forall m <- Shown(sp, now) ::
              m.id in sp.hashes && m.id in p.contents
              && sp.hashes[m.id] == Entry(p.contents[m.id], m.score, m.score + k.ttl as real)
    ensures Shown(sp, now)[ExpiredPrefix(Shown(sp, now), k.ttl, now)..] == List(p, k, now)
    ensures forall m <- List(p, k, now) :: m.id in p.contents
  {
    ShownIsList(p, sp, k, now);
    ListOfZSet(p, sp, k, now);
  }

  /** `BruteForceIndex.nearest`'s loop over the ids, newest first: which are live, and the best. */
  method Scan(ids: seq<Member>, hashes: map<nat, Entry>, now: real, query: Vec, sim: (Vec, Vec) -> real,
              ttl: nat, ghost contents: map<nat, Content>)
    returns (live: seq<Member>, best: Option<Member>)
    requires Sorted(ids)
    requires forall m <- ids ::
               m.id in hashes && m.id in contents
               && hashes[m.id] == Entry(contents[m.id], m.score, m.score + ttl as real)
    ensures live == ids[ExpiredPrefix(ids, ttl, now)..]
    ensures best == Nearest(live, contents, query, sim)
  {
    live, best := [], None;
    ghost var e := ExpiredPrefix(ids, ttl, now);
    ExpiredPrefixSplits(ids, ttl, now);
    hide Sorted, ExpiredPrefix;
    var i := |ids|;
    while i > 0
      invariant 0 <= i <= |ids|
      invariant live == ids[if i >= e then i else e..]
      invariant best == Nearest(live, contents, query, sim)
    {
      i := i - 1;
      var m := ids[i];
      if now < hashes[m.id].until {
        ghost var newer := live;
        live := [m] + live;
        assert live[1..] == newer;
        if best.None? || sim(hashes[m.id].content.vec, query) > sim(hashes[best.value.id].content.vec, query) {
          best := Some(m);
        }
      }
    }
  }

  // ------------------------------------------------------------------ the cache

  class SemanticCache {
    const sim: (Vec, Vec) -> real
    const threshold: real
    const limits: Limits
    var spaces: map<Namespace, Space>
    var tenants: map<string, TenantSet>
    ghost var past: map<Namespace, Past>
    ghost var clock: real

    constructor (sim: (Vec, Vec) -> real, threshold: real, limits: Limits, now: real)
      requires 0.0 < threshold <= 1.0
      ensures Valid() && past == map[] && clock == now
      ensures this.sim == sim && this.threshold == threshold && this.limits == limits
    {
      this.sim, this.threshold, this.limits := sim, threshold, limits;
      spaces, tenants, past, clock := map[], map[], map[], now;
    }

    function SpaceOf(ns: Namespace): Space
      reads `spaces
    {
      if ns in spaces then spaces[ns] else NO_SPACE
    }

    ghost function PastOf(ns: Namespace): Past
      reads `past
    {
      if ns in past then past[ns] else NO_PAST
    }

    ghost predicate Listed(ns: Namespace)
      reads `past, `tenants, `clock
    {
      ListedIn(Holds(ns, clock), ns, tenants, limits.ttl)
    }

    ghost predicate Valid()
      reads this
    {
      && (forall ns :: SpaceOk(PastOf(ns), SpaceOf(ns), limits, clock))
      && (forall ns :: Listed(ns))
      && (forall t <- tenants :: forall ns <- tenants[t].names :: ns.tenant == t)
    }

    /** What the cache holds for a namespace. */
    ghost function Holds(ns: Namespace, now: real): seq<Member>
      reads `past
    {
      List(PastOf(ns), limits, now)
    }

    /** Time passing keeps the invariant. */
    ghost method Advance(now: real)
      requires Valid() && clock <= now
      modifies `clock
      ensures Valid() && clock == now
    {
      forall ns
        ensures SpaceOk(PastOf(ns), SpaceOf(ns), limits, now)
      {
        SpaceOkLater(PastOf(ns), SpaceOf(ns), limits, clock, now);
      }
      forall ns
        ensures ListedIn(List(PastOf(ns), limits, now), ns, tenants, limits.ttl)
      {
        assert SpaceOk(PastOf(ns), SpaceOf(ns), limits, clock) && Listed(ns);
        ListShrinks(PastOf(ns), limits, clock, now);
      }
      clock := now;
    }

    /** New contents for one namespace's keys, for the same past. */
    method Replace(ns: Namespace, sp: Space)
      requires Valid() && SpaceOk(PastOf(ns), sp, limits, clock)
      modifies `spaces
      ensures Valid() && spaces == old(spaces)[ns := sp]
    {
      hide SpaceOk, ListedIn, List;
      spaces := spaces[ns := sp];
      forall other
        ensures SpaceOk(PastOf(other), SpaceOf(other), limits, clock) && Listed(other)
      {
        assert old(SpaceOk(PastOf(other), SpaceOf(other), limits, clock)) && old(Listed(other));
      }
    }

    /** ZREM of the ids whose hash is gone. */
    method Prune(ns: Namespace, live: seq<Member>)
      requires Valid() && live == Holds(ns, clock) && Shown(SpaceOf(ns), clock) != []
      modifies `spaces
      ensures Valid()
    {
      hide SpaceOk, Listed, List;
      PruningChangesNothing(PastOf(ns), SpaceOf(ns), limits, clock);
      Replace(ns, Pruned(SpaceOf(ns), live));
    }

    /** `BruteForceIndex.nearest`: the best entry, and the ids whose hash is gone pruned away. */
    method FindNearest(ns: Namespace, query: Vec, now: real) returns (best: Option<Member>, content: Option<Content>)
      requires Valid() && clock == now
      modifies `spaces
      ensures Valid()
      ensures forall m <- Holds(ns, now) :: m.id in PastOf(ns).contents
      ensures best == Nearest(Holds(ns, now), PastOf(ns).contents, query, sim)
      ensures content == if best.Some? then Some(PastOf(ns).contents[best.value.id]) else None
    {
      var sp := SpaceOf(ns);
      ghost var p := PastOf(ns);
      assert SpaceOk(p, sp, limits, now);
      hide SpaceOk, Listed, Valid;
      ScanReady(p, sp, limits, now);
      hide Sorted, Expired, ExpiredPrefix, Nearest;
      var ids := Shown(sp, now);
      if ids == [] {
        return None, None;
      }
      var live;
      live, best := Scan(ids, sp.hashes, now, query, sim, limits.ttl, p.contents);
      content := if best.Some? then Some(sp.hashes[best.value.id].content) else None;
      if live != ids {
        Prune(ns, live);
      }
    }

    /** `lookup`: a hit if and only if the most similar entry of exactly this namespace that is neither
        over age nor evicted reaches the threshold. Pruning the zset changes no past and no list. */
    method Lookup(tenant: string, request: ChatRequest, query: Vec, now: real) returns (hit: Option<Hit>)
      requires Valid() && clock <= now && request.messages != []
      modifies `spaces, `clock
      ensures Valid() && clock == now
      ensures var ns := NamespaceFor(tenant, request);
              && (forall m <- Holds(ns, now) :: m.id in PastOf(ns).contents)
              && hit == match Nearest(Holds(ns, now), PastOf(ns).contents, query, sim)
                        case None => None
                        case Some(m) =>
                          var c := PastOf(ns).contents[m.id];
                          if sim(c.vec, query) < threshold then None else Some(Hit(c.payload, sim(c.vec, query)))
    {
      Advance(now);
      var best, content := FindNearest(NamespaceFor(tenant, request), query, now);
      if best.None? || sim(content.value.vec, query) < threshold {
        return None;
      }
      hit := Some(Hit(content.value.payload, sim(content.value.vec, query)));
    }

    /** `store`, with an id that uuid4 has not come up with in this namespace before: one entry more in
        exactly this namespace's past; afterwards its zset shows exactly the list, and nothing else of any
        namespace has changed. */
    method Store(tenant: string, request: ChatRequest, vec: Vec, completion: Completion, id: nat, now: real)
      requires Valid() && clock <= now && request.messages != []
      requires id !in PastOf(NamespaceFor(tenant, request)).contents
      modifies this
      ensures Valid() && clock == now
      ensures var ns := NamespaceFor(tenant, request);
              && past == old(past)[ns := PastWith(old(PastOf(ns)), Member(id, now), Content(vec, completion))]
              && Members(SpaceOf(ns)) == Holds(ns, now)
              && spaces == old(spaces)[ns := SpaceOf(ns)]
    {
      hide *;
      Advance(now);
      StoreIn(NamespaceFor(tenant, request), Member(id, now), Content(vec, completion));
    }

    method StoreIn(ns: Namespace, x: Member, content: Content)
      requires Valid() && x.score == clock && x.id !in PastOf(ns).contents
      modifies `spaces, `tenants, `past
      ensures Valid() && past == old(past)[ns := PastWith(old(PastOf(ns)), x, content)]
      ensures Members(SpaceOf(ns)) == Holds(ns, clock)
      ensures spaces == old(spaces)[ns := SpaceOf(ns)]
    {
      hide *;
      var sp := Pipeline(SpaceOf(ns), x, content);
      Commit(ns, x, content, sp);
    }

    /** The commands of `store` on the namespace's own keys: the transaction, then the DEL of what the
        cap pushed out. */
    method Pipeline(sp: Space, x: Member, content: Content) returns (sp': Space)
      ensures sp' == AfterStore(sp, x, content, limits)
    {
      hide Insert, ExpiredPrefix, Excess, Ids, Shown;
      var until := x.score + limits.ttl as real;
      var hashes := sp.hashes[x.id := Entry(content, x.score, until)];
      var members := Insert(Shown(sp, x.score), x);
      members := members[ExpiredPrefix(members, limits.ttl, x.score)..];
      var excess := Excess(|members|, limits.cap);
      hashes := hashes - Ids(members[..excess]);
      members := members[excess..];
      sp' := Space(hashes, if members == [] then None else Some(ZSet(members, until)));
    }

    /** What all those commands leave behind, and the tenant's set. */
    method Commit(ns: Namespace, x: Member, content: Content, sp: Space)
      requires Valid() && x.score == clock && x.id !in PastOf(ns).contents
      requires sp == AfterStore(SpaceOf(ns), x, content, limits)
      modifies `spaces, `tenants, `past
      ensures Valid() && spaces == old(spaces)[ns := sp]
      ensures past == old(past)[ns := PastWith(old(PastOf(ns)), x, content)]
      ensures Members(SpaceOf(ns)) == Holds(ns, clock)
      ensures spaces == old(spaces)[ns := SpaceOf(ns)]
    {
      hide SpaceOk, ListedIn, AfterStore, List, PastWith;
      ghost var p, before, listed := PastOf(ns), SpaceOf(ns), tenants;
      StoreKeepsSpaceOk(p, before, x, content, limits);
      StoreKeepsTheList(p, before, x, content, limits);
      spaces := spaces[ns := sp];
      past := past[ns := PastWith(p, x, content)];
      tenants := Enlisted(tenants, ns, limits.ttl, x.score);
      forall other
        ensures SpaceOk(PastOf(other), SpaceOf(other), limits, clock) && Listed(other)
      {
        assert old(SpaceOk(PastOf(other), SpaceOf(other), limits, clock)) && old(Listed(other));
        assert SpaceOk(PastOf(other), SpaceOf(other), limits, clock);
        ListIsFresh(PastOf(other), SpaceOf(other), limits, clock);
        EnlistingKeepsListed(Holds(other, clock), other, ns, listed, limits.ttl, clock);
      }
    }

    /** `purge_tenant`: every entry of the tenant is gone and counted, whatever TTLs ran out before, and
        nothing of any other tenant has changed. */
    method PurgeTenant(tenant: string, now: real) returns (deleted: nat)
      requires Valid() && clock <= now
      modifies this
      ensures Valid() && clock == now && tenants == old(tenants) - {tenant}
      ensures deleted == |old(LiveKeys(spaces, tenant, now))| && LiveKeys(spaces, tenant, now) == {}
      ensures forall ns: Namespace :: ns.tenant == tenant ==> Holds(ns, now) == []
      ensures forall ns: Namespace :: ns.tenant != tenant ==>
                SpaceOf(ns) == old(SpaceOf(ns)) && PastOf(ns) == old(PastOf(ns))
    {
      Advance(now);
      var names := if tenant in tenants && now < tenants[tenant].until then tenants[tenant].names else {};
      NothingUnlisted(tenant, names);
      deleted := PurgeSpaces(tenant, names, now);
      NothingLive(tenant);
      DropTenantSet(tenant);
    }

    /** The loop over the tenant's namespaces. */
    method PurgeSpaces(tenant: string, names: set<Namespace>, now: real) returns (deleted: nat)
      requires Valid() && clock == now && (forall ns <- names :: ns.tenant == tenant)
      requires forall ns: Namespace :: ns.tenant == tenant && ns !in names ==> Holds(ns, clock) == []
      modifies `spaces, `past
      ensures Valid() && deleted + |LiveKeys(spaces, tenant, clock)| == |LiveKeys(old(spaces), tenant, clock)|
      ensures forall ns: Namespace :: ns.tenant == tenant ==> Holds(ns, clock) == []
      ensures forall ns: Namespace :: ns.tenant != tenant ==>
                SpaceOf(ns) == old(SpaceOf(ns)) && PastOf(ns) == old(PastOf(ns))
    {
      hide SpaceOk, Listed, List;
      deleted := 0;
      var todo := names;
      while todo != {}
        invariant Valid() && todo <= names
        invariant deleted + |LiveKeys(spaces, tenant, clock)| == |LiveKeys(old(spaces), tenant, clock)|
        invariant forall ns: Namespace :: ns.tenant == tenant && ns !in todo ==> Holds(ns, clock) == []
        invariant forall ns: Namespace :: ns.tenant != tenant ==>
                  SpaceOf(ns) == old(SpaceOf(ns)) && PastOf(ns) == old(PastOf(ns))
        decreases todo
      {
        var ns :| ns in todo;
        var n := DeleteSpace(ns, now);
        deleted := deleted + n;
        todo := todo - {ns};
      }
    }

    /** `_delete_matching` on the namespace's entries, then DEL of its zset. */
    method DeleteSpace(ns: Namespace, now: real) returns (deleted: nat)
      requires Valid() && clock == now
      modifies `spaces, `past
      ensures Valid() && spaces == old(spaces) - {ns} && past == old(past) - {ns}
      ensures Holds(ns, clock) == []
      ensures deleted + |LiveKeys(spaces, ns.tenant, clock)| == |LiveKeys(old(spaces), ns.tenant, clock)|
    {
      hide SpaceOk, List, Listed, LiveIds, LiveKeys;
      deleted := |LiveIds(SpaceOf(ns), now)|;
      DeletedCount(spaces, ns, clock);
      EmptySpaceOk(limits, clock);
      Forget(ns);
    }

    method Forget(ns: Namespace)
      requires Valid() && SpaceOk(NO_PAST, NO_SPACE, limits, clock) && List(NO_PAST, limits, clock) == []
      modifies `spaces, `past
      ensures Valid() && spaces == old(spaces) - {ns} && past == old(past) - {ns}
    {
      hide SpaceOk, List;
      spaces := spaces - {ns};
      past := past - {ns};
      forall other
        ensures SpaceOk(PastOf(other), SpaceOf(other), limits, clock) && Listed(other)
      {
        assert old(SpaceOk(PastOf(other), SpaceOf(other), limits, clock)) && old(Listed(other));
      }
    }

    /** What the tenant's set no longer names is empty. */
    lemma NothingUnlisted(tenant: string, names: set<Namespace>)
      requires Valid()
      requires names == if tenant in tenants && clock < tenants[tenant].until then tenants[tenant].names else {}
      ensures forall ns: Namespace :: ns.tenant == tenant && ns !in names ==> Holds(ns, clock) == []
    {
      hide SpaceOk, ListedIn, List;
      forall ns: Namespace | ns.tenant == tenant && ns !in names
        ensures Holds(ns, clock) == []
      {
        assert SpaceOk(PastOf(ns), SpaceOf(ns), limits, clock) && Listed(ns);
        ListIsFresh(PastOf(ns), SpaceOf(ns), limits, clock);
        ListedWhileAny(Holds(ns, clock), ns, tenants, limits, clock);
      }
    }

    /** A tenant whose lists are all empty has no live key. */
    lemma NothingLive(tenant: string)
      requires Valid() && forall ns: Namespace :: ns.tenant == tenant ==> Holds(ns, clock) == []
      ensures LiveKeys(spaces, tenant, clock) == {}
    {
      hide SpaceOk, Listed, List, HasHash;
      forall ns: Namespace, id | ns in spaces && ns.tenant == tenant && id in spaces[ns].hashes
        ensures !HasHash(spaces[ns], id, clock)
      {
        assert SpaceOk(PastOf(ns), SpaceOf(ns), limits, clock);
        HashesAreList(PastOf(ns), SpaceOf(ns), limits, clock, id);
        assert Holds(ns, clock) == [];
      }
    }

    /** DEL of the tenant's set. */
    method DropTenantSet(tenant: string)
      requires Valid() && forall ns: Namespace :: ns.tenant == tenant ==> Holds(ns, clock) == []
      modifies `tenants
      ensures Valid() && tenants == old(tenants) - {tenant}
    {
      hide SpaceOk, List;
      tenants := tenants - {tenant};
      forall ns
        ensures Listed(ns)
      {
        assert old(Listed(ns));
      }
    }
  }

  function LiveIds(sp: Space, now: real): set<nat> {
    set id | id in sp.hashes && HasHash(sp, id, now)
  }

  /** Everything Redis still shows of a tenant's entries. */
  function LiveKeys(spaces: map<Namespace, Space>, tenant: string, now: real): set<(Namespace, nat)> {
    set ns, id |
      ns in spaces && ns.tenant == tenant && id in spaces[ns].hashes && HasHash(spaces[ns], id, now) :: (ns, id)
  }

  function Paired(ns: Namespace, ids: set<nat>): set<(Namespace, nat)> {
    set id | id in ids :: (ns, id)
  }

  lemma {:induction false} PairedCount(ns: Namespace, ids: set<nat>)
    ensures |Paired(ns, ids)| == |ids|
  {
    if ids != {} {
      var x :| x in ids;
      PairedCount(ns, ids - {x});
      assert Paired(ns, ids) == Paired(ns, ids - {x}) + {(ns, x)};
    }
  }

  /** The count `_delete_matching` reports for a namespace is what its tenant has fewer of. */
  lemma DeletedCount(spaces: map<Namespace, Space>, ns: Namespace, now: real)
    ensures |LiveIds(if ns in spaces then spaces[ns] else NO_SPACE, now)| + |LiveKeys(spaces - {ns}, ns.tenant, now)|
            == |LiveKeys(spaces, ns.tenant, now)|
  {
    var ids := LiveIds(if ns in spaces then spaces[ns] else NO_SPACE, now);
    PairedCount(ns, ids);
    KeysSplit(spaces, ns, now, ids);
  }

  lemma KeysSplit(spaces: map<Namespace, Space>, ns: Namespace, now: real, ids: set<nat>)
    requires ids == LiveIds(if ns in spaces then spaces[ns] else NO_SPACE, now)
    ensures LiveKeys(spaces, ns.tenant, now) == LiveKeys(spaces - {ns}, ns.tenant, now) + Paired(ns, ids)
    ensures LiveKeys(spaces - {ns}, ns.tenant, now) !! Paired(ns, ids)
  {
    hide HasHash;
  }

  lemma EmptySpaceOk(k: Limits, clock: real)
    ensures SpaceOk(NO_PAST, NO_SPACE, k, clock) && List(NO_PAST, k, clock) == []
  {
  }
}
