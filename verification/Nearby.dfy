/** GetNearby: mask, enrich, rank, behind the grid cache
    (backend/internal/service/message_service.go, backend/internal/cache/redis.go).
    Service calls are atomic steps; what the database answers, and whether Redis and the lookups
    succeed, are parameters of the call. */
module Nearby {
  import opened Basics
  import opened Reactions
  import opened Messages
  import opened Ranking

  /** Distance, number formatting with three decimals, and the score's curves. */
  datatype World = World(dist: Distance, fmt3: real -> string, curves: Curves)

  datatype Query = Query(lat: real, lng: real, radius: int, limit: int, order: string, hashtag: string, user: User)

  function Normalize(q: Query): Query
  {
    q.(radius := if q.radius <= 0 then 1000 else q.radius,
       limit := if q.limit <= 0 || q.limit > 50 then 50 else q.limit)
  }

  /** Only a radius or limit out of range is replaced: by 1000 m, and by 50 messages. */
  lemma NormalizeExact(q: Query)
    ensures var n := Normalize(q);
            && n.lat == q.lat && n.lng == q.lng && n.order == q.order && n.hashtag == q.hashtag && n.user == q.user
            && n.radius == (if q.radius > 0 then q.radius else 1000)
            && n.limit == (if 1 <= q.limit <= 50 then q.limit else 50)
  {
  }

  /** The tables GetNearby reads. Message ids are never reused. */
  datatype Store = Store(messages: map<Msg, Message>, everUsed: set<Msg>, unlocks: set<(Msg, User)>, reactions: AllRows)

  // ---- The uncached pipeline -------------------------------------------------------------

  const MASK: string := "???"

  /** What the database answers during one call: the nearby rows, the batch of reaction rows (or an
      error), and the messages whose unlock lookup failed. */
  datatype Reply = Reply(rows: seq<Message>, batch: seq<(Msg, Summary)>, reactionsOk: bool, failed: set<Msg>)

  /** The masking test of the loop. */
  predicate MustMask(unlocks: set<(Msg, User)>, user: User, failed: set<Msg>, m: Message)
  {
    && m.kind == Mystery
    && (user == "" || m.author != user)
    && !(user != "" && m.id !in failed && (m.id, user) in unlocks)
  }

  function MaskOne(unlocks: set<(Msg, User)>, user: User, failed: set<Msg>, m: Message): Message
  {
    if MustMask(unlocks, user, failed, m) then m.(content := MASK) else m
  }

  function MaskAll(unlocks: set<(Msg, User)>, user: User, failed: set<Msg>, ms: seq<Message>): (r: seq<Message>)
    ensures |r| == |ms| && forall i :: 0 <= i < |ms| ==> r[i] == MaskOne(unlocks, user, failed, ms[i])
  {
    seq(|ms|, i requires 0 <= i < |ms| => MaskOne(unlocks, user, failed, ms[i]))
  }

  predicate AnyMasked(unlocks: set<(Msg, User)>, user: User, failed: set<Msg>, ms: seq<Message>)
  {
    exists i :: 0 <= i < |ms| && MustMask(unlocks, user, failed, ms[i])
  }

  function EnrichOne(r: Reply, m: Message): Message
  {
    if r.reactionsOk && GroupOf(r.batch, m.id) != [] then m.(reactions := GroupOf(r.batch, m.id)) else m
  }

  function EnrichAll(r: Reply, ms: seq<Message>): (out: seq<Message>)
    ensures |out| == |ms| && forall i :: 0 <= i < |ms| ==> out[i] == EnrichOne(r, ms[i])
  {
    seq(|ms|, i requires 0 <= i < |ms| => EnrichOne(r, ms[i]))
  }

  /** The repository's result: the rows, filtered when a hashtag is given. */
  function Found(q: Query, r: Reply): seq<Message>
  {
    if q.hashtag == "" then r.rows else Keep(r.rows, SearchTag(q.hashtag))
  }

  function Ids(ms: seq<Message>): (ids: seq<Msg>)
    ensures |ids| == |ms| && forall i :: 0 <= i < |ms| ==> ids[i] == ms[i].id
  {
    seq(|ms|, i requires 0 <= i < |ms| => ms[i].id)
  }

  function Prepared(st: Store, q: Query, r: Reply): seq<Message>
  {
    EnrichAll(r, MaskAll(st.unlocks, q.user, r.failed, Found(q, r)))
  }

  /** The reply is one the database may give. */
  ghost predicate Possible(w: World, st: Store, q: Query, now: real, r: Reply)
  {
    && SqlAnswer(w.dist, st.messages, q.lat, q.lng, q.radius, q.limit, q.user, now, r.rows)
    && (r.reactionsOk ==> BatchAnswer(st.reactions, Ids(Found(q, r)), q.user, r.batch))
  }

  /** `out` is a result of the uncached pipeline for the normalized query `q` on `st` at `now`. */
  ghost predicate Produces(w: World, st: Store, q: Query, now: real, r: Reply, out: seq<Message>)
  {
    Possible(w, st, q, now, r) && Ranked(w.curves, q.order, now, Prepared(st, q, r), out)
  }

  lemma FoundIsCandidate(w: World, st: Store, q: Query, now: real, r: Reply, m: Message)
    requires Possible(w, st, q, now, r) && m in Found(q, r)
    ensures Candidate(w.dist, st.messages, q.lat, q.lng, q.radius, q.user, now, m)
  {
    if q.hashtag != "" { KeepMembers(r.rows, SearchTag(q.hashtag), m); }
    hide Keep;
    hide Candidate;
    assert m in r.rows;
    var j :| 0 <= j < |r.rows| && r.rows[j] == m;
  }

  /** Enrichment gives a message found exactly the answer of its own reaction query. */
  lemma OwnReactions(w: World, st: Store, q: Query, now: real, r: Reply, m: Message)
    requires Possible(w, st, q, now, r) && m in Found(q, r) && r.reactionsOk && m.reactions == []
    ensures Answer(Under(st.reactions, m.id), q.user, EnrichOne(r, m).reactions)
  {
    var ids := Ids(Found(q, r));
    assert m.id in ids by {
      var i :| 0 <= i < |ids| && Found(q, r)[i] == m;
      assert ids[i] == m.id;
    }
    hide SqlAnswer;
    hide Found;
    BatchGivesOwnSummary(st.reactions, ids, q.user, r.batch, m.id);
  }

  lemma MaskKeepsRest(unlocks: set<(Msg, User)>, user: User, failed: set<Msg>, r: Reply, m: Message)
    ensures var x := EnrichOne(r, MaskOne(unlocks, user, failed, m));
            && x.id == m.id && SameFrame(x, m)
            && x.content == MaskOne(unlocks, user, failed, m).content
            && x.reactions == EnrichOne(r, m).reactions
  {
  }

  /** Each prepared message is a stored one with distance, mask and its own reactions added. */
  lemma PreparedFrom(w: World, st: Store, q: Query, now: real, r: Reply, x: Message)
    requires Possible(w, st, q, now, r) && x in Prepared(st, q, r)
    ensures x.id in st.messages
    ensures var row := st.messages[x.id];
            && row.id == x.id && SameFrame(x, row)
            && x.content == MaskOne(st.unlocks, q.user, r.failed, row).content
            && Visible(row, q.user, now)
            && (r.reactionsOk && row.reactions == [] ==> Answer(Under(st.reactions, x.id), q.user, x.reactions))
    ensures MustMask(st.unlocks, q.user, r.failed, st.messages[x.id]) ==> AnyMasked(st.unlocks, q.user, r.failed, Found(q, r))
  {
    hide Possible;
    hide Answer;
    hide Visible;
    hide EnrichOne;
    var found := Found(q, r);
    hide Found;
    var i :| 0 <= i < |found| && Prepared(st, q, r)[i] == x;
    var m := found[i];
    assert m in found;
    FoundIsCandidate(w, st, q, now, r, m);
    assert x == EnrichOne(r, MaskOne(st.unlocks, q.user, r.failed, m));
    MaskKeepsRest(st.unlocks, q.user, r.failed, r, m);
    if r.reactionsOk && m.reactions == [] { OwnReactions(w, st, q, now, r, m); }
  }

  lemma OutputFrom(w: World, st: Store, q: Query, now: real, r: Reply, out: seq<Message>, x: Message)
    requires Produces(w, st, q, now, r, out) && x in out
    ensures x in Prepared(st, q, r)
  {
    assert x in multiset(out);
    assert x in multiset(Prepared(st, q, r));
  }

  ghost predicate Listed(ms: seq<Message>, id: Msg) { exists x :: x in ms && x.id == id }

  lemma SameListing(a: seq<Message>, b: seq<Message>, id: Msg)
    requires multiset(a) == multiset(b)
    ensures Listed(a, id) <==> Listed(b, id)
  {
    forall x ensures x in a <==> x in b {
      assert x in a <==> x in multiset(a);
      assert x in b <==> x in multiset(b);
    }
  }

  lemma PreparedIds(st: Store, q: Query, r: Reply, id: Msg)
    ensures Listed(Prepared(st, q, r), id) <==> Listed(Found(q, r), id)
  {
    var found, ready := Found(q, r), Prepared(st, q, r);
    hide Found;
    if Listed(found, id) {
      var k :| 0 <= k < |found| && found[k].id == id;
      assert ready[k] in ready && ready[k].id == id;
    }
    if Listed(ready, id) {
      var k :| 0 <= k < |ready| && ready[k].id == id;
      assert found[k] in found && found[k].id == id;
    }
  }

  /** The uncached answer lists exactly the rows, or with a hashtag exactly those that carry it. */
  lemma AnswerLists(w: World, st: Store, q: Query, now: real, r: Reply, out: seq<Message>, id: Msg)
    requires Produces(w, st, q, now, r, out)
    ensures q.hashtag == "" ==> (Listed(out, id) <==> Listed(r.rows, id))
    ensures q.hashtag != "" ==> (Listed(out, id) <==> exists m :: m in r.rows && m.id == id && HasTag(m, SearchTag(q.hashtag)))
  {
    PreparedIds(st, q, r, id);
    SameListing(out, Prepared(st, q, r), id);
    if q.hashtag != "" {
      forall m ensures m in Found(q, r) <==> m in r.rows && HasTag(m, SearchTag(q.hashtag)) {
        KeepMembers(r.rows, SearchTag(q.hashtag), m);
      }
    }
    hide Keep;
    hide HasTag;
    hide Prepared;
  }

  // ---- The cache -----------------------------------------------------------------------------

  /** The components GridKey prints; the limit, order and hashtag are not among them. */
  datatype Key = Key(lat: string, lng: string, radius: int, uid: string)

  /** User ids are at least eight characters long; "" is the anonymous caller. */
  predicate WellFormed(user: User) { user == "" || |user| >= 8 }

  function Prefix(user: User): string
    requires WellFormed(user)
  {
    if user == "" then "anon" else user[..8]
  }

  function GridKey(w: World, q: Query): Key
    requires WellFormed(q.user)
  {
    Key(w.fmt3(q.lat), w.fmt3(q.lng), q.radius, Prefix(q.user))
  }

  /** Two queries of known users share an entry if and only if they agree on the printed coordinates,
      the radius and the user. */
  lemma GridKeyExact(w: World, users: set<User>, q: Query, q': Query)
    requires Distinct(users) && WellFormed(q.user) && WellFormed(q'.user)
    requires (q.user == "" || q.user in users) && (q'.user == "" || q'.user in users)
    ensures GridKey(w, q) == GridKey(w, q') <==>
            w.fmt3(q.lat) == w.fmt3(q'.lat) && w.fmt3(q.lng) == w.fmt3(q'.lng) && q.radius == q'.radius && q.user == q'.user
  {
    if GridKey(w, q) == GridKey(w, q') {
      if q.user != "" && q'.user != "" {
        assert q.user[..8] == q'.user[..8];
      } else {
        assert |"anon"| == 4;
      }
    }
  }

  predicate Cacheable(q: Query)
  {
    q.hashtag == "" && (q.order == "" || q.order == "distance")
  }

  /** `expires` is None when the TTL is zero, which Redis takes as no expiry. */
  datatype Entry = Entry(value: seq<Message>, expires: Option<real>)

  datatype System = System(now: real, store: Store, cache: map<Key, Entry>, enabled: bool, ttl: real)

  function NewEntry(s: System, out: seq<Message>): Entry
  {
    Entry(out, if s.ttl > 0.0 then Some(s.now + s.ttl) else None)
  }

  /** With a positive TTL an entry answers from its writing until the TTL has passed; without, for good. */
  lemma EntryLifetime(s: System, out: seq<Message>, t: real)
    ensures Live(NewEntry(s, out), t) <==> s.ttl <= 0.0 || t < s.now + s.ttl
  {
  }

  predicate Live(e: Entry, now: real)
  {
    e.expires.None? || now < e.expires.value
  }

  datatype Call =
    | Tick(seconds: real)
    | Create(m: Message)
    | Delete(id: Msg, user: User)
    | Unlock(id: Msg, user: User)
    | Interact(messages: map<Msg, Message>, reactions: AllRows)
    | GetNearby(q: Query, getOk: bool, setOk: bool, reply: Reply, out: seq<Message>)

  /** The columns no statement updates. Likes, comments, counters and the moderation flag may change. */
  predicate SameCore(a: Message, b: Message)
  {
    a.content == b.content && SameFrame(a, b)
  }

  /** The same columns but for the content, which the mask replaces on the way out. */
  predicate SameFrame(a: Message, b: Message)
  {
    && a.author == b.author && a.kind == b.kind
    && a.visibility == b.visibility && a.expires == b.expires && a.scheduled == b.scheduled
  }

  /** A lookup that finds a live entry. */
  predicate Hit(w: World, s: System, q: Query, getOk: bool)
    requires WellFormed(q.user)
  {
    Cacheable(q) && s.enabled && getOk && GridKey(w, q) in s.cache && Live(s.cache[GridKey(w, q)], s.now)
  }

  /** The miss path stores its result unless something was masked. */
  predicate Stores(s: System, q: Query, setOk: bool, r: Reply)
  {
    Cacheable(q) && s.enabled && setOk && !AnyMasked(s.store.unlocks, q.user, r.failed, Found(q, r))
  }

  /** InvalidateZone: every grid key goes; without Redis there is nothing to do. */
  function Invalidated(s: System): map<Key, Entry>
  {
    if s.enabled then map[] else s.cache
  }

  /** Deleting a message cascades to its unlocks and reactions. */
  function Without(st: Store, id: Msg): Store
  {
    Store(st.messages - {id}, st.everUsed,
          (set p | p in st.unlocks && p.0 != id),
          (set t | t in st.reactions && t.0 != id))
  }

  predicate Deletes(s: System, id: Msg, user: User)
  {
    id in s.store.messages && s.store.messages[id].author == user
  }

  ghost predicate Next(w: World, s: System, call: Call, s': System)
  {
    match call
    case Tick(dt) => dt >= 0.0 && s' == s.(now := s.now + dt)
    case Create(m) =>
      && m.id !in s.store.everUsed
      && s' == s.(store := s.store.(messages := s.store.messages[m.id := m], everUsed := s.store.everUsed + {m.id}),
                  cache := Invalidated(s))
    case Delete(id, user) =>
      if Deletes(s, id, user)
      then s' == s.(store := Without(s.store, id), cache := Invalidated(s))
      else s' == s
    case Unlock(id, user) =>
      && id in s.store.messages && user != ""
      && s' == s.(store := s.store.(unlocks := s.store.unlocks + {(id, user)}))
    case Interact(ms, reactions) =>
      && ms.Keys == s.store.messages.Keys
      && (forall id :: id in ms ==> SameCore(ms[id], s.store.messages[id]))
      && s' == s.(store := s.store.(messages := ms, reactions := reactions))
    case GetNearby(q0, getOk, setOk, r, out) =>
      var q := Normalize(q0);
      && WellFormed(q.user)
      && if Hit(w, s, q, getOk)
         then out == s.cache[GridKey(w, q)].value && s' == s
         else && Produces(w, s.store, q, s.now, r, out)
              && s' == if Stores(s, q, setOk, r) then s.(cache := s.cache[GridKey(w, q) := NewEntry(s, out)]) else s
  }

  /** What each call does besides answering: time passes, a new message is stored, an unlock recorded;
      likes, reactions and moderation move while nobody's fixed columns do. None but a creation or a
      deletion touches the cache, and they empty it. */
  lemma CallsAct(w: World, s: System, call: Call, s': System)
    requires Next(w, s, call, s')
    ensures call.Tick? ==> call.seconds >= 0.0 && s'.now == s.now + call.seconds && s' == s.(now := s'.now)
    ensures call.Create? ==> s'.store.messages == s.store.messages[call.m.id := call.m] && call.m.id in s'.store.everUsed
    ensures call.Unlock? ==> s'.store == s.store.(unlocks := s.store.unlocks + {(call.id, call.user)}) && s'.cache == s.cache
    ensures call.Interact? ==>
              && s'.store.messages == call.messages && s'.store.reactions == call.reactions && s'.cache == s.cache
              && s'.store.unlocks == s.store.unlocks
    ensures s.enabled && (call.Create? || (call.Delete? && s'.store != s.store)) ==> s'.cache == map[]
  {
    hide Produces;
    hide Hit;
    hide Stores;
  }

  /** The call creates or removes a message. */
  predicate Changes(s: System, call: Call)
  {
    call.Create? || (call.Delete? && Deletes(s, call.id, call.user))
  }

  /** Users have distinct eight-character prefixes, as GridKey assumes. */
  ghost predicate Distinct(users: set<User>)
  {
    && (forall u :: u in users ==> |u| >= 8)
    && (forall u, v :: u in users && v in users && u[..8] == v[..8] ==> u == v)
  }

  /** A run of the service from any store with an empty cache, called by `users` and anonymously. */
  ghost predicate Run(w: World, users: set<User>, states: seq<System>, calls: seq<Call>)
  {
    && Distinct(users)
    && |states| == |calls| + 1
    && states[0].cache == map[] && states[0].store.messages.Keys <= states[0].store.everUsed
    && (forall i :: 0 <= i < |calls| ==> Next(w, states[i], calls[i], states[i + 1]))
    && (forall i :: 0 <= i < |calls| && calls[i].GetNearby? ==> calls[i].q.user == "" || calls[i].q.user in users)
  }

  // ---- Content: what a caller sees -------------------------------------------------------------

  /** The caller wrote the message or has unlocked it. */
  predicate Authorized(st: Store, id: Msg, user: User)
    requires id in st.messages
  {
    user != "" && (st.messages[id].author == user || (id, user) in st.unlocks)
  }

  /** What the mystery rule lets the caller read of a message now. Whether the message should be
      listed at all is the business of Visible. */
  function Shown(st: Store, id: Msg, user: User): string
    requires id in st.messages
  {
    if st.messages[id].kind == Mystery && !Authorized(st, id, user) then MASK else st.messages[id].content
  }

  /** A cached message is a stored message, unmasked; a mystery only under the key of users who may
      read it, so never under the anonymous key. */
  ghost predicate CachedOk(st: Store, users: set<User>, key: Key, x: Message)
  {
    && x.id in st.messages && SameCore(x, st.messages[x.id])
    && (x.kind == Mystery ==> key.uid != "anon")
    && (x.kind == Mystery ==> forall u :: u in users && WellFormed(u) && Prefix(u) == key.uid ==> Authorized(st, x.id, u))
  }

  ghost predicate EntryOk(st: Store, users: set<User>, key: Key, value: seq<Message>)
  {
    forall x :: x in value ==> CachedOk(st, users, key, x)
  }

  ghost predicate CacheOk(users: set<User>, s: System)
  {
    && s.store.messages.Keys <= s.store.everUsed
    && (!s.enabled ==> s.cache == map[])
    && (forall key :: key in s.cache ==> EntryOk(s.store, users, key, s.cache[key].value))
  }

  lemma MissContent(w: World, st: Store, q: Query, now: real, r: Reply, out: seq<Message>, x: Message)
    requires Produces(w, st, q, now, r, out) && x in out
    ensures x.id in st.messages && SameFrame(x, st.messages[x.id]) && Visible(st.messages[x.id], q.user, now)
    ensures x.id !in r.failed ==> x.content == Shown(st, x.id, q.user)
    ensures x.content == Shown(st, x.id, q.user) || x.content == MASK
    ensures !AnyMasked(st.unlocks, q.user, r.failed, Found(q, r)) ==>
              x.content == st.messages[x.id].content && (x.kind == Mystery ==> Authorized(st, x.id, q.user))
  {
    OutputFrom(w, st, q, now, r, out, x);
    PreparedFrom(w, st, q, now, r, x);
  }

  lemma StoredEntryOk(w: World, users: set<User>, s: System, q: Query, r: Reply, out: seq<Message>)
    requires Distinct(users) && WellFormed(q.user) && (q.user == "" || q.user in users)
    requires Produces(w, s.store, q, s.now, r, out) && !AnyMasked(s.store.unlocks, q.user, r.failed, Found(q, r))
    ensures EntryOk(s.store, users, GridKey(w, q), out)
  {
    forall x | x in out ensures CachedOk(s.store, users, GridKey(w, q), x) {
      MissContent(w, s.store, q, s.now, r, out, x);
    }
  }

  /** Unlocks and interactions keep every entry right. */
  lemma EntryStays(st: Store, st': Store, users: set<User>, key: Key, value: seq<Message>)
    requires EntryOk(st, users, key, value)
    requires st'.messages.Keys == st.messages.Keys && st.unlocks <= st'.unlocks
    requires forall id :: id in st.messages ==> SameCore(st'.messages[id], st.messages[id])
    ensures EntryOk(st', users, key, value)
  {
  }

  lemma NextKeepsCacheOk(w: World, users: set<User>, s: System, call: Call, s': System)
    requires Distinct(users) && CacheOk(users, s) && Next(w, s, call, s')
    requires call.GetNearby? ==> call.q.user == "" || call.q.user in users
    ensures CacheOk(users, s')
  {
    match call
    case GetNearby(q0, getOk, setOk, r, out) =>
      var q := Normalize(q0);
      if !Hit(w, s, q, getOk) && Stores(s, q, setOk, r) {
        StoredEntryOk(w, users, s, q, r, out);
      }
    case Unlock(id, user) =>
      forall key | key in s.cache ensures EntryOk(s'.store, users, key, s.cache[key].value) {
        EntryStays(s.store, s'.store, users, key, s.cache[key].value);
      }
    case Interact(ms, reactions) =>
      forall key | key in s.cache ensures EntryOk(s'.store, users, key, s.cache[key].value) {
        EntryStays(s.store, s'.store, users, key, s.cache[key].value);
      }
    case _ =>
  }

  lemma {:induction false} RunKeepsCacheOk(w: World, users: set<User>, states: seq<System>, calls: seq<Call>, i: nat)
    requires Run(w, users, states, calls) && i < |states|
    ensures CacheOk(users, states[i])
  {
    if i > 0 {
      RunKeepsCacheOk(w, users, states, calls, i - 1);
      hide CacheOk;
      hide Next;
      NextKeepsCacheOk(w, users, states[i - 1], calls[i - 1], states[i]);
    }
  }

  /** In every run, every message GetNearby returns, on hits as well as misses, is a stored message
      whose content is exactly what the mystery rule allows the caller at that very moment; only a
      failed unlock lookup can mask more. On a miss it is visible to the caller; on a hit it is, if
      and only if it has not been hidden or expired since the entry was written. */
  lemma ContentExact(w: World, users: set<User>, states: seq<System>, calls: seq<Call>, n: nat, x: Message)
    requires Run(w, users, states, calls) && n < |calls| && calls[n].GetNearby? && x in calls[n].out
    ensures WellFormed(calls[n].q.user)
    ensures x.id in states[n].store.messages && SameFrame(x, states[n].store.messages[x.id])
    ensures x.content == Shown(states[n].store, x.id, calls[n].q.user) || (x.content == MASK && x.id in calls[n].reply.failed)
    ensures var row, now := states[n].store.messages[x.id], states[n].now;
            && (Visible(row, calls[n].q.user, now) <==> !row.hidden && !Expired(row, now))
            && (!Hit(w, states[n], Normalize(calls[n].q), calls[n].getOk) ==> Visible(row, calls[n].q.user, now))
  {
    RunKeepsCacheOk(w, users, states, calls, n);
    var s, call := states[n], calls[n];
    var q := Normalize(call.q);
    CallMade(w, users, states, calls, n);
    if Hit(w, s, q, call.getOk) {
      HitContent(w, users, s, q, x);
      hide *;
      HitVisibleNow(w, users, states, calls, n, x);
    } else {
      MissContent(w, s.store, q, s.now, call.reply, call.out, x);
    }
  }

  predicate Expired(m: Message, now: real) { m.expires.Some? && m.expires.value <= now }

  /** Call `n` of a run is a step, and its result is the cached value or a pipeline result. */
  lemma CallMade(w: World, users: set<User>, states: seq<System>, calls: seq<Call>, n: nat)
    requires Run(w, users, states, calls) && n < |calls| && calls[n].GetNearby?
    ensures Distinct(users) && WellFormed(calls[n].q.user) && (calls[n].q.user == "" || calls[n].q.user in users)
    ensures var q := Normalize(calls[n].q);
            if Hit(w, states[n], q, calls[n].getOk) then calls[n].out == states[n].cache[GridKey(w, q)].value
            else Produces(w, states[n].store, q, states[n].now, calls[n].reply, calls[n].out)
  {
    assert Next(w, states[n], calls[n], states[n + 1]);
  }

  lemma HitContent(w: World, users: set<User>, s: System, q: Query, x: Message)
    requires Distinct(users) && WellFormed(q.user) && (q.user == "" || q.user in users)
    requires CacheOk(users, s) && GridKey(w, q) in s.cache && x in s.cache[GridKey(w, q)].value
    ensures x.id in s.store.messages && SameCore(x, s.store.messages[x.id])
    ensures x.content == Shown(s.store, x.id, q.user)
  {
    assert CachedOk(s.store, users, GridKey(w, q), x);
  }

  /** Entries under the anonymous key hold no mystery messages, in every reachable state. */
  lemma AnonymousEntriesHoldNoMystery(w: World, users: set<User>, states: seq<System>, calls: seq<Call>, n: nat, key: Key, x: Message)
    requires Run(w, users, states, calls) && n < |states|
    requires key in states[n].cache && key.uid == "anon" && x in states[n].cache[key].value
    ensures x.kind != Mystery
  {
    RunKeepsCacheOk(w, users, states, calls, n);
    assert CachedOk(states[n].store, users, key, x);
  }

  lemma {:induction false} UnlockStays(w: World, users: set<User>, states: seq<System>, calls: seq<Call>, m: nat, n: nat, id: Msg, u: User)
    requires Run(w, users, states, calls) && m <= n < |states|
    requires id in states[m].store.everUsed && (id, u) in states[m].store.unlocks && id in states[n].store.messages
    ensures (id, u) in states[n].store.unlocks
    decreases n - m
  {
    if m < n {
      RunKeepsCacheOk(w, users, states, calls, m);
      assert Next(w, states[m], calls[m], states[m + 1]);
      if calls[m].Delete? && calls[m].id == id && Deletes(states[m], id, calls[m].user) {
        GoneForever(w, users, states, calls, m + 1, n, id);
      }
      UnlockStays(w, users, states, calls, m + 1, n, id, u);
    }
  }

  lemma {:induction false} GoneForever(w: World, users: set<User>, states: seq<System>, calls: seq<Call>, m: nat, n: nat, id: Msg)
    requires Run(w, users, states, calls) && m <= n < |states|
    requires id in states[m].store.everUsed && id !in states[m].store.messages
    ensures id !in states[n].store.messages
    decreases n - m
  {
    if m < n {
      assert Next(w, states[m], calls[m], states[m + 1]);
      GoneForever(w, users, states, calls, m + 1, n, id);
    }
  }

  /** Read your writes through the cache: once a user's unlock succeeded, no later GetNearby of that
      user shows the message masked, as long as the lookups succeed. */
  lemma UnlockIsVisible(w: World, users: set<User>, states: seq<System>, calls: seq<Call>, m: nat, n: nat, x: Message)
    requires Run(w, users, states, calls) && m < n < |calls|
    requires calls[m].Unlock? && calls[n].GetNearby? && calls[n].q.user == calls[m].user
    requires x in calls[n].out && x.id == calls[m].id && x.id !in calls[n].reply.failed
    ensures x.id in states[n].store.messages && x.content == states[n].store.messages[x.id].content
  {
    ContentExact(w, users, states, calls, n, x);
    RunKeepsCacheOk(w, users, states, calls, m);
    assert Next(w, states[m], calls[m], states[m + 1]);
    UnlockStays(w, users, states, calls, m + 1, n, x.id, calls[m].user);
  }

  // ---- Agreement with the uncached pipeline ------------------------------------------------------

  /** Entry `e` under `key` was written by call `m`: a miss whose query has that key, whose result on
      the store of that moment it is, with nothing masked. */
  ghost predicate WrittenBy(w: World, s: System, call: Call, key: Key, e: Entry)
  {
    && call.GetNearby? && WellFormed(call.q.user)
    && var q := Normalize(call.q);
       && Cacheable(q) && GridKey(w, q) == key
       && Produces(w, s.store, q, s.now, call.reply, call.out)
       && !AnyMasked(s.store.unlocks, q.user, call.reply.failed, Found(q, call.reply))
       && e == NewEntry(s, call.out)
  }

  /** No message was created or deleted by the calls m+1, ..., n-1. */
  ghost predicate Undisturbed(states: seq<System>, calls: seq<Call>, m: nat, n: nat)
    requires n <= |calls| && |calls| <= |states|
  {
    forall i :: m < i < n ==> !Changes(states[i], calls[i])
  }

  /** An entry present after a call was written by it, or was there before and the call neither
      created nor deleted a message. */
  lemma EntryStep(w: World, s: System, call: Call, s': System, key: Key)
    requires Next(w, s, call, s') && key in s'.cache && (!s.enabled ==> s.cache == map[])
    ensures s'.ttl == s.ttl
    ensures || WrittenBy(w, s, call, key, s'.cache[key])
            || (key in s.cache && s.cache[key] == s'.cache[key] && !Changes(s, call))
  {
    hide Produces;
    hide AnyMasked;
    hide Found;
    hide Live;
  }

  lemma {:induction false} EntryOrigin(w: World, users: set<User>, states: seq<System>, calls: seq<Call>, n: nat, key: Key) returns (m: nat)
    requires Run(w, users, states, calls) && n < |states| && key in states[n].cache
    ensures m < n && WrittenBy(w, states[m], calls[m], key, states[n].cache[key]) && Undisturbed(states, calls, m, n)
    ensures states[m].ttl == states[n].ttl
  {
    hide WrittenBy;
    hide Next;
    hide Changes;
    assert n > 0;
    var s, call := states[n - 1], calls[n - 1];
    assert !s.enabled ==> s.cache == map[] by { RunKeepsCacheOk(w, users, states, calls, n - 1); }
    EntryStep(w, s, call, states[n], key);
    if WrittenBy(w, s, call, key, states[n].cache[key]) {
      m := n - 1;
    } else {
      m := EntryOrigin(w, users, states, calls, n - 1, key);
    }
  }

  /** The two queries are of one caller, about one grid cell and radius, and both plain: no hashtag, and
      the default order. */
  predicate SameQuestion(w: World, q: Query, q': Query)
  {
    && w.fmt3(q.lat) == w.fmt3(q'.lat) && w.fmt3(q.lng) == w.fmt3(q'.lng)
    && q.radius == q'.radius && q.user == q'.user
    && q.hashtag == "" && q'.hashtag == ""
    && (q.order == "" || q.order == "distance") && (q'.order == "" || q'.order == "distance")
  }

  /** Cache agreement. Every hit returns the result of the uncached pipeline for some plain query of the
      same caller, about the same rounded place and the same radius, on the store at an earlier moment
      less than the TTL ago, since which no message was created or deleted. */
  lemma HitAgrees(w: World, users: set<User>, states: seq<System>, calls: seq<Call>, n: nat) returns (m: nat)
    requires Run(w, users, states, calls) && n < |calls| && calls[n].GetNearby?
    requires WellFormed(calls[n].q.user) && Hit(w, states[n], Normalize(calls[n].q), calls[n].getOk)
    ensures m < n && calls[m].GetNearby? && WellFormed(calls[m].q.user) && calls[m].q.user == calls[n].q.user
    ensures SameQuestion(w, Normalize(calls[m].q), Normalize(calls[n].q))
    ensures Produces(w, states[m].store, Normalize(calls[m].q), states[m].now, calls[m].reply, calls[n].out)
    ensures states[n].ttl > 0.0 ==> states[n].now - states[m].now < states[n].ttl
    ensures Undisturbed(states, calls, m, n)
  {
    hide Produces;
    hide AnyMasked;
    hide Found;
    hide Next;
    hide GridKey;
    var key := GridKey(w, Normalize(calls[n].q));
    m := EntryOrigin(w, users, states, calls, n, key);
    CallMade(w, users, states, calls, n);
    CallMade(w, users, states, calls, m);
    GridKeyExact(w, users, Normalize(calls[m].q), Normalize(calls[n].q));
  }

  /** (a) Every message of a hit was visible to this same caller when the entry was written, less than
      the TTL ago. */
  lemma HitWasVisible(w: World, users: set<User>, states: seq<System>, calls: seq<Call>, n: nat, x: Message) returns (m: nat)
    requires Run(w, users, states, calls) && n < |calls| && calls[n].GetNearby? && x in calls[n].out
    requires WellFormed(calls[n].q.user) && Hit(w, states[n], Normalize(calls[n].q), calls[n].getOk)
    ensures m < n && calls[m].GetNearby? && Undisturbed(states, calls, m, n)
    ensures x.id in states[m].store.messages && Visible(states[m].store.messages[x.id], calls[n].q.user, states[m].now)
    ensures states[n].ttl > 0.0 ==> states[n].now - states[m].now < states[n].ttl
  {
    hide *;
    RunLength(w, users, states, calls);
    m := HitAgrees(w, users, states, calls, n);
    MissContent(w, states[m].store, Normalize(calls[m].q), states[m].now, calls[m].reply, calls[n].out, x);
    SameUser(calls[m].q);
  }

  lemma SameUser(q: Query)
    ensures Normalize(q).user == q.user
  {
  }

  /** One call that creates and deletes nothing keeps every row's fixed columns; time never goes back. */
  lemma QuietStep(w: World, s: System, call: Call, s': System, id: Msg)
    requires Next(w, s, call, s') && !Changes(s, call) && id in s.store.messages
    ensures id in s'.store.messages && SameCore(s'.store.messages[id], s.store.messages[id]) && s.now <= s'.now
  {
    hide Produces;
    hide AnyMasked;
    hide Found;
    hide Live;
  }

  lemma {:induction false} QuietSince(w: World, users: set<User>, states: seq<System>, calls: seq<Call>, m: nat, n: nat, id: Msg)
    requires Run(w, users, states, calls) && m < n < |states| && calls[m].GetNearby? && Undisturbed(states, calls, m, n)
    requires id in states[m].store.messages
    ensures id in states[n].store.messages && SameCore(states[n].store.messages[id], states[m].store.messages[id])
    ensures states[m].now <= states[n].now
    decreases n
  {
    hide Next;
    assert Next(w, states[n - 1], calls[n - 1], states[n]);
    if m < n - 1 {
      QuietSince(w, users, states, calls, m, n - 1, id);
      assert !Changes(states[n - 1], calls[n - 1]);
    }
    QuietStep(w, states[n - 1], calls[n - 1], states[n], id);
  }

  /** A row with the same fixed columns, visible at `since`, is visible now exactly if it is neither
      hidden nor expired now: what was revealed stays revealed. */
  lemma StillVisible(past: Message, row: Message, user: User, since: real, now: real)
    requires Visible(past, user, since) && SameCore(row, past) && since <= now
    ensures Visible(row, user, now) <==> !row.hidden && !Expired(row, now)
  {
  }

  /** (b) A message of a hit is visible now if and only if its row is not hidden and not expired now. */
  lemma HitVisibleNow(w: World, users: set<User>, states: seq<System>, calls: seq<Call>, n: nat, x: Message)
    requires Run(w, users, states, calls) && n < |calls| && calls[n].GetNearby? && x in calls[n].out
    requires WellFormed(calls[n].q.user) && Hit(w, states[n], Normalize(calls[n].q), calls[n].getOk)
    ensures x.id in states[n].store.messages
    ensures var row, now := states[n].store.messages[x.id], states[n].now;
            Visible(row, calls[n].q.user, now) <==> !row.hidden && !Expired(row, now)
  {
    hide *;
    var m := HitWasVisible(w, users, states, calls, n, x);
    RunLength(w, users, states, calls);
    QuietSince(w, users, states, calls, m, n, x.id);
    StillVisible(states[m].store.messages[x.id], states[n].store.messages[x.id], calls[n].q.user, states[m].now, states[n].now);
  }

  lemma RunLength(w: World, users: set<User>, states: seq<System>, calls: seq<Call>)
    requires Run(w, users, states, calls)
    ensures |states| == |calls| + 1
  {
  }

  // ---- Order, entry and removal in every run --------------------------------------------------------

  /** Answers ordered by time or by likes are never cached, and are in that order. */
  lemma OrderedAnswers(w: World, users: set<User>, states: seq<System>, calls: seq<Call>, n: nat, i: nat, j: nat)
    requires Run(w, users, states, calls) && n < |calls| && calls[n].GetNearby? && i < j < |calls[n].out|
    ensures calls[n].q.order == "recent" ==> calls[n].out[i].created >= calls[n].out[j].created
    ensures calls[n].q.order == "popular" ==> calls[n].out[i].likes >= calls[n].out[j].likes
  {
    CallMade(w, users, states, calls, n);
    hide Run;
    var q := Normalize(calls[n].q);
    if q.order == "recent" || q.order == "popular" {
      assert !Hit(w, states[n], q, calls[n].getOk);
      hide Possible;
      hide Prepared;
      RankedMeans(w.curves, q.order, states[n].now, Prepared(states[n].store, q, calls[n].reply), calls[n].out, i, j);
    }
  }

  /** A message goes only by a delete of its own author. */
  lemma RemovedByAuthor(w: World, users: set<User>, states: seq<System>, calls: seq<Call>, n: nat, id: Msg)
    requires Run(w, users, states, calls) && n < |calls|
    requires |states| == |calls| + 1 && id in states[n].store.messages && id !in states[n + 1].store.messages
    ensures calls[n].Delete? && calls[n].id == id && calls[n].user == states[n].store.messages[id].author
  {
    assert Next(w, states[n], calls[n], states[n + 1]);
    hide Run;
    hide Produces;
    hide Hit;
    hide Stores;
  }

  // ---- A hidden message on a hit ------------------------------------------------------------------

  /** A public standard message at the origin. */
  const SAMPLE: Message :=
    Message("m", "author-1", "hello", 0.0, 0.0, Public, [], 0, 0.0, Standard, Some(DAY), 50, None, false, None, [])

  /** A point has distance zero from itself. */
  predicate Grounded(w: World) { w.dist(0.0, 0.0, 0.0, 0.0) == 0.0 }

  /** The anonymous default query there, and the database's reply to it. */
  const ORIGIN: Query := Query(0.0, 0.0, 0, 0, "", "", "")

  const ONE_ROW: Reply := Reply([SAMPLE.(distance := Some(0.0))], [], true, {})

  lemma OneRowPossible(w: World, st: Store)
    requires Grounded(w) && st.messages == map["m" := SAMPLE] && st.reactions == {}
    ensures Produces(w, st, Normalize(ORIGIN), 0.0, ONE_ROW, ONE_ROW.rows)
    ensures !AnyMasked(st.unlocks, "", {}, Found(Normalize(ORIGIN), ONE_ROW))
  {
    var q := Normalize(ORIGIN);
    assert Located(w.dist, 0.0, 0.0, SAMPLE) == ONE_ROW.rows[0];
    assert Candidate(w.dist, st.messages, 0.0, 0.0, 1000, "", 0.0, ONE_ROW.rows[0]);
    assert SqlAnswer(w.dist, st.messages, 0.0, 0.0, 1000, 50, "", 0.0, ONE_ROW.rows);
    assert Possible(w, st, q, 0.0, ONE_ROW);
    assert Prepared(st, q, ONE_ROW) == ONE_ROW.rows;
  }

  const HIDDEN: map<Msg, Message> := map["m" := SAMPLE.(hidden := true)]
  const LOOK: Call := GetNearby(ORIGIN, true, true, ONE_ROW, ONE_ROW.rows)

  const BEFORE: System := System(0.0, Store(map[], {}, {}, {}), map[], true, 60.0)
  const CREATED: System := BEFORE.(store := Store(map["m" := SAMPLE], {"m"}, {}, {}))

  function Cached(w: World): System
  {
    CREATED.(cache := map[GridKey(w, Normalize(ORIGIN)) := Entry(ONE_ROW.rows, Some(60.0))])
  }

  function Moderated(w: World): System { Cached(w).(store := CREATED.store.(messages := HIDDEN)) }

  lemma CreateThenLook(w: World)
    requires Grounded(w)
    ensures Next(w, BEFORE, Create(SAMPLE), CREATED)
    ensures Next(w, CREATED, LOOK, Cached(w))
  {
    OneRowPossible(w, CREATED.store);
    hide Produces;
    hide AnyMasked;
    hide Found;
    assert BEFORE.store.messages["m" := SAMPLE] == CREATED.store.messages && {} + {"m"} == CREATED.store.everUsed;
    assert CREATED.cache[GridKey(w, Normalize(ORIGIN)) := Entry(ONE_ROW.rows, Some(60.0))] == Cached(w).cache;
  }

  lemma HideThenLook(w: World)
    ensures Next(w, Cached(w), Interact(HIDDEN, {}), Moderated(w))
    ensures Hit(w, Moderated(w), Normalize(ORIGIN), true) && Next(w, Moderated(w), LOOK, Moderated(w))
    ensures !Visible(Moderated(w).store.messages["m"], "", Moderated(w).now)
  {
    hide Produces;
    hide AnyMasked;
  }

  /** HideMessage does not invalidate: create, look, hide, look again. The second look is a hit that
      returns the moderated message in full, though it is no longer visible to the caller. */
  lemma ServedWhileHidden(w: World) returns (states: seq<System>, calls: seq<Call>, x: Message)
    requires Grounded(w)
    ensures Run(w, {}, states, calls) && |calls| == 4 && calls[3].GetNearby? && WellFormed(calls[3].q.user)
    ensures Hit(w, states[3], Normalize(calls[3].q), calls[3].getOk)
    ensures x in calls[3].out && x.id in states[3].store.messages
    ensures x.content == states[3].store.messages[x.id].content
    ensures !Visible(states[3].store.messages[x.id], calls[3].q.user, states[3].now)
  {
    CreateThenLook(w);
    HideThenLook(w);
    hide Next;
    hide Hit;
    hide Visible;
    states := [BEFORE, CREATED, Cached(w), Moderated(w), Moderated(w)];
    calls := [Create(SAMPLE), LOOK, Interact(HIDDEN, {}), LOOK];
    x := ONE_ROW.rows[0];
    assert Normalize(ORIGIN) == Normalize(calls[3].q);
  }
}
