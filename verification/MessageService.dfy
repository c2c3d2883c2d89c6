/** MessageService as an object: the loops of GetNearby over a slice, and Create, Delete and
    UnlockMystery on tables and cache. Each method is one step of the Nearby run model. */
module MessageService {
  import opened Basics
  import opened Hashtags
  import opened Reactions
  import opened Messages
  import opened Ranking
  import opened Nearby

  /** The masking loop, in place on the first `n` elements. */
  method MaskInPlace(a: array<Message>, n: nat, unlocks: set<(Msg, User)>, user: User, failed: set<Msg>) returns (hasMasked: bool)
    requires n <= a.Length
    modifies a
    ensures a[..n] == MaskAll(unlocks, user, failed, old(a[..n]))
    ensures hasMasked == AnyMasked(unlocks, user, failed, old(a[..n]))
  {
    ghost var before := a[..n];
    hasMasked := false;
    var i := 0;
    while i < n
      invariant 0 <= i <= n
      invariant forall k :: 0 <= k < i ==> a[k] == MaskOne(unlocks, user, failed, before[k])
      invariant forall k :: i <= k < n ==> a[k] == before[k]
      invariant hasMasked == AnyMasked(unlocks, user, failed, before[..i])
    {
      var m := a[i];
      assert before[..i + 1] == before[..i] + [m];
      var masked := false;
      if m.kind == Mystery {
        if user == "" || m.author != user {
          var unlocked := user != "" && m.id !in failed && (m.id, user) in unlocks;
          if !unlocked {
            a[i] := m.(content := MASK);
            masked := true;
          }
        }
      }
      AnyMaskedAppend(unlocks, user, failed, before[..i], m);
      hasMasked := hasMasked || masked;
      i := i + 1;
    }
    assert before[..i] == before;
  }

  lemma AnyMaskedAppend(unlocks: set<(Msg, User)>, user: User, failed: set<Msg>, ms: seq<Message>, m: Message)
    ensures AnyMasked(unlocks, user, failed, ms + [m]) <==> AnyMasked(unlocks, user, failed, ms) || MustMask(unlocks, user, failed, m)
  {
    var all := ms + [m];
    if AnyMasked(unlocks, user, failed, ms) {
      var i :| 0 <= i < |ms| && MustMask(unlocks, user, failed, ms[i]);
      assert all[i] == ms[i];
    }
    if MustMask(unlocks, user, failed, m) { assert all[|ms|] == m; }
  }

  /** The enrichment loop: each message takes the group collected under its id, if any. */
  method EnrichInPlace(a: array<Message>, n: nat, reply: Reply)
    requires n <= a.Length
    modifies a
    ensures a[..n] == EnrichAll(reply, old(a[..n]))
  {
    ghost var before := a[..n];
    if reply.reactionsOk && n > 0 {
      var byMessage := GroupRows(reply.batch);
      var i := 0;
      while i < n
        invariant 0 <= i <= n
        invariant forall k :: 0 <= k < i ==> a[k] == EnrichOne(reply, before[k])
        invariant forall k :: i <= k < n ==> a[k] == before[k]
      {
        if a[i].id in byMessage {
          a[i] := a[i].(reactions := byMessage[a[i].id]);
        }
        i := i + 1;
      }
    }
  }

  // ---- What a new message's announcement shows --------------------------------------------

  /** What every open connection is sent: a mystery masked, anything else whole. */
  function Announced(m: Message): Message
  {
    if m.kind == Mystery then m.(content := MASK) else m
  }

  /** An anonymous caller may be shown `x` now: its row is visible without a user, and the
      content is what the mystery rule leaves. */
  predicate AnonymousMaySee(st: Store, x: Message, now: real)
  {
    x.id in st.messages && Visible(st.messages[x.id], "", now) && x.content == Shown(st, x.id, "")
  }

  /** The request asks for a message that everybody may see as soon as it is stored. */
  predicate OpenAtOnce(req: Request, now: real)
  {
    && req.visibility == Public
    && (req.kind == Capsule ==> req.scheduledAt.None? || req.scheduledAt.value <= now < req.scheduledAt.value + DAY)
  }

  /** The announcement shows no more than an anonymous caller may see if and only if the message is
      public and, for a capsule, revealed: the broadcast does not look at visibility or schedule. */
  lemma AnnouncementExact(st: Store, req: Request, id: Msg, author: User, now: real)
    requires id in st.messages && st.messages[id] == Stored(req, id, author, now)
    ensures AnonymousMaySee(st, Announced(st.messages[id]), now) <==> OpenAtOnce(req, now)
  {
    VisibleWindow(req, id, author, now, "", now);
    hide Visible;
    var m := Stored(req, id, author, now);
    assert m.id == id && m.kind == req.kind;
    assert Announced(m).id == id && Announced(m).content == Shown(st, id, "");
  }

  /** A private note is announced word for word, though no query ever lists it to an anonymous caller. */
  lemma PrivateIsAnnounced(id: Msg, author: User, now: real) returns (req: Request)
    ensures req.visibility == Private && req.kind == Standard && req.content == "note"
    ensures Announced(Stored(req, id, author, now)).content == req.content
    ensures forall t :: !Visible(Stored(req, id, author, now), "", t)
  {
    req := Request("note", 0.0, 0.0, Private, Standard, 0, None);
    assert TrimSpace(req.content) == req.content by {
      assert !IsSpace('n') && !IsSpace('e');
      assert TrimLeft("note") == "note";
    }
  }

  // ---- Create, then find ------------------------------------------------------------------------

  /** The request asks for a message that `user` may see as soon as `author` has stored it. */
  predicate OpenAtOnceTo(req: Request, author: User, user: User, now: real)
  {
    && (req.visibility == Public || (user != "" && user == author))
    && (req.kind == Capsule ==> req.scheduledAt.None? || req.scheduledAt.value <= now < req.scheduledAt.value + DAY)
  }

  /** A new message is found where it was written. Whoever may see it at once and asks there without
      the cache gets it, unless as many other messages as the limit are just as near. */
  lemma CreatedIsFound(w: World, st: Store, req: Request, id: Msg, author: User, now: real, q: Query, r: Reply, out: seq<Message>)
    requires id in st.messages && st.messages[id] == Stored(req, id, author, now) && OpenAtOnceTo(req, author, q.user, now)
    requires q.lat == req.lat && q.lng == req.lng && w.dist(req.lat, req.lng, q.lat, q.lng) == 0.0 && q.radius >= 0
    requires q.hashtag == "" && Produces(w, st, q, now, r, out)
    requires |Rivals(w.dist, st.messages, q.lat, q.lng, q.radius, q.user, now, id, false)| < q.limit
    ensures exists x :: x in out && x.id == id
  {
    StoredColumns(req, id, author, now);
    VisibleWindow(req, id, author, now, q.user, now);
    var m := Located(w.dist, q.lat, q.lng, st.messages[id]);
    assert Candidate(w.dist, st.messages, q.lat, q.lng, q.radius, q.user, now, m) && m.id == id;
    hide Candidate;
    hide Visible;
    hide Stored;
    hide Rivals;
    hide SqlAnswer;
    LimitExact(w.dist, st.messages, q.lat, q.lng, q.radius, q.limit, q.user, now, r.rows, m);
    AnswerLists(w, st, q, now, r, out, id);
    assert Listed(r.rows, id);
  }

  // ---- Unlocking ------------------------------------------------------------------------------

  /** A mystery the user could unlock from where they stand: visible, within 1000 m and within its
      own radius. */
  ghost predicate WithinReach(w: World, st: Store, id: Msg, user: User, lat: real, lng: real, now: real)
  {
    && id in st.messages && st.messages[id].kind == Mystery
    && var here := Located(w.dist, lat, lng, st.messages[id]);
       && Candidate(w.dist, st.messages, lat, lng, 1000, user, now, here) && here.id == id
       && here.distance.value <= st.messages[id].mysteryRadius as real
  }

  /** Rows hold a message at most once, and as the query locates it. */
  lemma RowOf(w: World, st: Store, user: User, lat: real, lng: real, now: real, rows: seq<Message>, i: nat)
    requires SqlAnswer(w.dist, st.messages, lat, lng, 1000, 100, user, now, rows) && i < |rows|
    ensures rows[i].id in st.messages && rows[i] == Located(w.dist, lat, lng, st.messages[rows[i].id])
    ensures Candidate(w.dist, st.messages, lat, lng, 1000, user, now, rows[i])
  {
  }

  /** How an unlock request ends. */
  datatype UnlockResult = NotFound | Refused(target: Message) | Unlocked(target: Message, newly: bool)

  class Service {
    const w: World
    var now: real
    var store: Store
    var cache: map<Key, Entry>
    const enabled: bool
    const ttl: real

    ghost function View(): System
      reads this
    {
      System(now, store, cache, enabled, ttl)
    }

    constructor (w: World, now: real, store: Store, enabled: bool, ttl: real)
      ensures this.w == w && View() == System(now, store, map[], enabled, ttl)
    {
      this.w := w;
      this.now := now;
      this.store := store;
      this.cache := map[];
      this.enabled := enabled;
      this.ttl := ttl;
    }

    /** The rows as a slice, compacted in place when a hashtag is given. */
    method Fetch(q: Query, reply: Reply) returns (a: array<Message>, n: nat)
      ensures fresh(a) && n <= a.Length && a[..n] == Found(q, reply)
    {
      a := new Message[|reply.rows|](i requires 0 <= i < |reply.rows| => reply.rows[i]);
      n := a.Length;
      assert a[..] == reply.rows;
      if q.hashtag != "" {
        n := FilterInPlace(a, SearchTag(q.hashtag));
      }
    }

    /** `reply` is what the database may answer to the normalized query; `getOk` and `setOk` whether
        Redis answers. The call is exactly one GetNearby step. */
    method GetNearby(q0: Query, getOk: bool, setOk: bool, reply: Reply) returns (out: seq<Message>)
      requires WellFormed(q0.user)
      requires !Hit(w, View(), Normalize(q0), getOk) ==> Possible(w, store, Normalize(q0), now, reply)
      modifies this`cache
      ensures Next(w, old(View()), Call.GetNearby(q0, getOk, setOk, reply, out), View())
      ensures cache != old(cache) ==> enabled && setOk && q0.hashtag == "" && (q0.order == "" || q0.order == "distance")
      ensures enabled && setOk && q0.hashtag == "" && (q0.order == "" || q0.order == "distance")
              && !Hit(w, old(View()), Normalize(q0), getOk) && !AnyMasked(store.unlocks, q0.user, reply.failed, Found(Normalize(q0), reply))
              ==> GridKey(w, Normalize(q0)) in cache && cache[GridKey(w, Normalize(q0))] == NewEntry(old(View()), out)
    {
      hide Possible;
      hide Ranked;
      hide AnyMasked;
      hide Found;
      var q := Normalize(q0);
      if Cacheable(q) {
        var key := GridKey(w, q);
        if enabled && getOk && key in cache && Live(cache[key], now) {
          return cache[key].value;
        }
      }
      assert !Hit(w, View(), q, getOk);
      var a, n := Fetch(q, reply);
      var hasMasked := MaskInPlace(a, n, store.unlocks, q.user, reply.failed);
      EnrichInPlace(a, n, reply);
      assert a[..n] == Prepared(store, q, reply);
      out := Rank(w.curves, q.order, now, a[..n]);
      assert Produces(w, store, q, now, reply, out);
      if Cacheable(q) && !hasMasked && enabled && setOk {
        cache := cache[GridKey(w, q) := Entry(out, if ttl > 0.0 then Some(now + ttl) else None)];
      }
    }

    method Invalidate()
      modifies this`cache
      ensures cache == Invalidated(old(View()))
    {
      if enabled {
        var keys: set<Key> := {};
        var scan := cache.Keys;
        while scan != {}
          invariant scan <= cache.Keys && keys == cache.Keys - scan
          decreases scan
        {
          var key :| key in scan;
          keys := keys + {key};
          scan := scan - {key};
        }
        if keys != {} {
          cache := cache - keys;
        }
      }
    }

    /** Insert, invalidate, announce. The database refuses content that is empty once trimmed, or too
        long. The announcement masks mysteries and nothing else, so it stays within what an anonymous
        caller may see exactly for messages open to everybody at once. */
    method Create(req: Request, id: Msg, author: User) returns (created: Option<Message>, announced: Option<Message>)
      requires id !in store.everUsed
      modifies this`store, this`cache
      ensures created.None? <==> |TrimSpace(req.content)| == 0 || |TrimSpace(req.content)| > 500
      ensures created.None? ==> View() == old(View()) && announced.None?
      ensures created.Some? ==> store == old(store).(messages := old(store).messages[id := created.value], everUsed := old(store).everUsed + {id})
      ensures created.Some? ==>
                var m := created.value;
                && m.id == id && m.author == author && m.lat == req.lat && m.lng == req.lng
                && m.visibility == req.visibility && m.kind == req.kind && m.content == TrimSpace(req.content)
                && m.created == now && m.likes == 0 && !m.hidden
                && m.mysteryRadius == (if req.mysteryRadius > 0 then req.mysteryRadius else 50)
      ensures created.Some? ==>
                && id in store.messages
                && announced == Some(Announced(created.value))
                && announced.value.content == Shown(store, id, "")
                && (AnonymousMaySee(store, announced.value, now) <==> OpenAtOnce(req, now))
      ensures created.Some? ==>
                && created.value == Stored(req, id, author, now)
                && Next(w, old(View()), Call.Create(created.value), View())
    {
      var m := Stored(req, id, author, now);
      if |m.content| == 0 || |m.content| > 500 {
        return None, None;
      }
      store := store.(messages := store.messages[id := m], everUsed := store.everUsed + {id});
      Invalidate();
      created := Some(m);
      AnnouncementExact(store, req, id, author, now);
      if m.kind == Mystery {
        announced := Some(m.(content := MASK));
      } else {
        announced := Some(m);
      }
    }

    /** Only the author deletes; success invalidates. The message goes with its unlocks and reactions,
        and nothing else goes. */
    method Delete(id: Msg, user: User) returns (found: bool)
      modifies this`store, this`cache
      ensures found <==> id in old(store.messages) && old(store.messages)[id].author == user
      ensures !found ==> View() == old(View())
      ensures found ==>
                && store.messages == old(store.messages) - {id} && store.everUsed == old(store.everUsed)
                && (forall p :: p in store.unlocks <==> p in old(store.unlocks) && p.0 != id)
                && (forall t :: t in store.reactions <==> t in old(store.reactions) && t.0 != id)
                && (enabled ==> cache == map[])
      ensures Next(w, old(View()), Call.Delete(id, user), View())
    {
      if id !in store.messages || store.messages[id].author != user {
        return false;
      }
      store := Without(store, id);
      Invalidate();
      found := true;
    }

    /** Find the message among the rows around the user, check kind and distance, record the unlock.
        The cache is left alone, and stays right. A refused request returns the row as fetched.
        Only a mystery within reach is unlocked; one within reach is, unless at least 100 other
        messages are no farther, and surely not when 100 are nearer. */
    method UnlockMystery(id: Msg, user: User, lat: real, lng: real, rows: seq<Message>) returns (res: UnlockResult)
      requires user != "" && SqlAnswer(w.dist, store.messages, lat, lng, 1000, 100, user, now, rows)
      modifies this`store
      ensures !res.Unlocked? ==> View() == old(View())
      ensures res.Unlocked? ==> Next(w, old(View()), Call.Unlock(id, user), View())
      ensures res.NotFound? <==> forall m :: m in rows ==> m.id != id
      ensures res.Unlocked? ==>
                && id in store.messages && (id, user) in store.unlocks
                && res.newly == ((id, user) !in old(store.unlocks))
                && res.target.id == id && res.target.kind == Mystery
                && res.target.content == store.messages[id].content
                && res.target.distance.Some? && res.target.distance.value <= store.messages[id].mysteryRadius as real
      ensures res.Refused? ==> res.target in rows && res.target.id == id
      ensures res.Refused? ==> res.target.distance.Some?
      ensures res.Refused? ==> res.target.kind != Mystery || res.target.distance.value > res.target.mysteryRadius as real
      ensures res.Unlocked? ==> WithinReach(w, old(store), id, user, lat, lng, now)
      ensures WithinReach(w, old(store), id, user, lat, lng, now) ==>
                && (|Rivals(w.dist, old(store).messages, lat, lng, 1000, user, now, id, false)| < 100 ==> res.Unlocked?)
                && (|Rivals(w.dist, old(store).messages, lat, lng, 1000, user, now, id, true)| >= 100 ==> res.NotFound?)
    {
      hide SqlAnswer;
      hide Candidate;
      hide Rivals;
      ghost var st := store;
      if WithinReach(w, st, id, user, lat, lng, now) {
        LimitExact(w.dist, st.messages, lat, lng, 1000, 100, user, now, rows, Located(w.dist, lat, lng, st.messages[id]));
      }
      var i := 0;
      while i < |rows| && rows[i].id != id
        invariant 0 <= i <= |rows|
        invariant forall k :: 0 <= k < i ==> rows[k].id != id
      {
        i := i + 1;
      }
      if i == |rows| {
        return NotFound;
      }
      var target := rows[i];
      RowOf(w, st, user, lat, lng, now, rows, i);
      if target.kind != Mystery {
        return Refused(target);
      }
      if target.distance.Some? && target.distance.value > target.mysteryRadius as real {
        return Refused(target);
      }
      var newly := (id, user) !in store.unlocks;
      store := store.(unlocks := store.unlocks + {(id, user)});
      res := Unlocked(target.(content := store.messages[id].content), newly);
    }
  }
}
