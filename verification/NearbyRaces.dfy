/** GetNearby, Create, Delete and UnlockMystery interleaved statement by statement
    (backend/internal/service/message_service.go, backend/internal/cache/redis.go). A call looks up,
    queries, checks unlocks one message at a time, reads reactions, sorts and stores as separate
    steps; a create or delete commits, scans the cache's keys and drops them as separate steps. */
module NearbyRaces {
  import opened Basics
  import opened Reactions
  import opened Messages
  import opened Ranking
  import opened Nearby

  /** Where a GetNearby call stands. */
  datatype Phase = Begun | Fetched | Enriched | Sorted | Returned

  /** One call. `ms` is its slice, masked up to `next`. The rest is history: the slice as fetched, the
      reactions it read, the unlocks recorded when it began and the messages whose lookup failed. */
  datatype Flight = Flight(
    q: Query, phase: Phase, ms: seq<Message>, next: nat, masked: bool,
    base: seq<Message>, reply: Reply, known: set<(Msg, User)>, failed: set<Msg>)

  /** `archive` and `granted` remember every message ever created and every unlock ever recorded.
      A write (create or delete) is committed, then scanned, then finished; `scans` holds the keys it found. */
  datatype State = State(
    now: real, store: Store, archive: map<Msg, Message>, granted: set<(Msg, User)>,
    cache: map<Key, Entry>, enabled: bool, ttl: real, flights: map<nat, Flight>,
    committed: set<nat>, scanned: set<nat>, finished: set<nat>, scans: map<nat, set<Key>>)

  datatype Step =
    | Tick(seconds: real)
    | Insert(write: nat, m: Message)
    | Erase(write: nat, id: Msg, user: User)
    | Scan(write: nat, keys: set<Key>)
    | Drop(write: nat)
    | Unlock(id: Msg, user: User)
    | Interact(messages: map<Msg, Message>, reactions: AllRows)
    | Lookup(t: nat, q: Query, getOk: bool)
    | Fetch(t: nat, rows: seq<Message>)
    | MaskNext(t: nat, ok: bool)
    | Enrich(t: nat, batch: seq<(Msg, Summary)>, ok: bool)
    | Sort(t: nat, out: seq<Message>)
    | Finish(t: nat, setOk: bool)

  function View(s: State): System { System(s.now, s.store, s.cache, s.enabled, s.ttl) }

  predicate At(s: State, t: nat, phase: Phase) { t in s.flights && s.flights[t].phase == phase }

  function Rows(q: Query, rows: seq<Message>): seq<Message> { Found(q, Reply(rows, [], false, {})) }

  function Failing(ok: bool, m: Message): set<Msg> { if ok then {} else {m.id} }

  ghost predicate Enabled(w: World, s: State, step: Step)
  {
    match step
    case Tick(dt) => dt >= 0.0
    case Insert(k, m) => k !in s.committed && m.id !in s.store.everUsed
    case Erase(k, id, user) => k !in s.committed && Deletes(View(s), id, user)
    case Scan(k, keys) =>
      k in s.committed && k !in s.scanned && forall key :: key in s.cache && Live(s.cache[key], s.now) ==> key in keys
    case Drop(k) => k in s.scans && k !in s.finished
    case Unlock(id, user) => id in s.store.messages && user != ""
    case Interact(ms, _) => ms.Keys == s.store.messages.Keys && forall id :: id in ms ==> SameCore(ms[id], s.store.messages[id])
    case Lookup(t, q, _) => t !in s.flights && WellFormed(q.user)
    case Fetch(t, rows) =>
      At(s, t, Begun) && var q := s.flights[t].q;
      SqlAnswer(w.dist, s.store.messages, q.lat, q.lng, q.radius, q.limit, q.user, s.now, rows)
    case MaskNext(t, _) => At(s, t, Fetched) && s.flights[t].next < |s.flights[t].ms|
    case Enrich(t, batch, ok) =>
      && At(s, t, Fetched) && s.flights[t].next == |s.flights[t].ms|
      && (ok ==> BatchAnswer(s.store.reactions, Ids(s.flights[t].ms), s.flights[t].q.user, batch))
    case Sort(t, out) => At(s, t, Enriched) && Ranked(w.curves, s.flights[t].q.order, s.now, s.flights[t].ms, out)
    case Finish(t, _) => At(s, t, Sorted) && WellFormed(s.flights[t].q.user)
  }

  function MakeEntry(s: State, out: seq<Message>): Entry { NewEntry(View(s), out) }

  /** The lookup: a hit returns the entry, a miss goes on. */
  function Started(w: World, s: State, q: Query, getOk: bool): Flight
    requires WellFormed(q.user)
  {
    if Hit(w, View(s), q, getOk)
    then Flight(q, Returned, s.cache[GridKey(w, q)].value, 0, false, [], Reply([], [], false, {}), s.store.unlocks, {})
    else Flight(q, Begun, [], 0, false, [], Reply([], [], false, {}), s.store.unlocks, {})
  }

  /** One turn of the masking loop, with its own unlock lookup. */
  function Masked(s: State, f: Flight, ok: bool): Flight
    requires f.next < |f.ms|
  {
    var m := f.ms[f.next];
    f.(ms := f.ms[f.next := MaskOne(s.store.unlocks, f.q.user, Failing(ok, m), m)], next := f.next + 1,
       masked := f.masked || MustMask(s.store.unlocks, f.q.user, Failing(ok, m), m), failed := f.failed + Failing(ok, m))
  }

  predicate StoresNow(s: State, f: Flight, setOk: bool) { Cacheable(f.q) && s.enabled && setOk && !f.masked }

  ghost function Next(w: World, s: State, step: Step): State
    requires Enabled(w, s, step)
  {
    match step
    case Tick(dt) => s.(now := s.now + dt)
    case Insert(k, m) =>
      s.(store := s.store.(messages := s.store.messages[m.id := m], everUsed := s.store.everUsed + {m.id}),
         archive := s.archive[m.id := m], committed := s.committed + {k})
    case Erase(k, id, user) => s.(store := Without(s.store, id), committed := s.committed + {k})
    case Scan(k, keys) => s.(scans := s.scans[k := keys], scanned := s.scanned + {k})
    case Drop(k) => s.(cache := s.cache - s.scans[k], finished := s.finished + {k})
    case Unlock(id, user) =>
      s.(store := s.store.(unlocks := s.store.unlocks + {(id, user)}), granted := s.granted + {(id, user)})
    case Interact(ms, reactions) => s.(store := s.store.(messages := ms, reactions := reactions))
    case Lookup(t, q, getOk) => s.(flights := s.flights[t := Started(w, s, Normalize(q), getOk)])
    case Fetch(t, rows) =>
      var f := s.flights[t];
      s.(flights := s.flights[t := f.(phase := Fetched, ms := Rows(f.q, rows), base := Rows(f.q, rows))])
    case MaskNext(t, ok) => s.(flights := s.flights[t := Masked(s, s.flights[t], ok)])
    case Enrich(t, batch, ok) =>
      var f, r := s.flights[t], Reply([], batch, ok, {});
      s.(flights := s.flights[t := f.(phase := Enriched, ms := EnrichAll(r, f.ms), reply := r)])
    case Sort(t, out) => s.(flights := s.flights[t := s.flights[t].(phase := Sorted, ms := out)])
    case Finish(t, setOk) =>
      var f := s.flights[t];
      s.(flights := s.flights[t := f.(phase := Returned)],
         cache := if StoresNow(s, f, setOk) then s.cache[GridKey(w, f.q) := MakeEntry(s, f.ms)] else s.cache)
  }

  /** A store nobody is working on, with an empty cache. */
  ghost predicate Quiet(s: State)
  {
    && s.cache == map[] && s.flights == map[] && s.scans == map[]
    && s.committed == {} && s.scanned == {} && s.finished == {}
    && s.archive == s.store.messages && s.granted == s.store.unlocks
    && s.store.messages.Keys <= s.store.everUsed
    && forall p :: p in s.store.unlocks ==> p.0 in s.store.messages
  }

  /** Calls come from `users` or anonymously. */
  predicate CalledBy(users: set<User>, step: Step)
  {
    step.Lookup? ==> step.q.user == "" || step.q.user in users
  }

  ghost predicate Run(w: World, users: set<User>, states: seq<State>, steps: seq<Step>)
  {
    && Distinct(users)
    && |states| == |steps| + 1 && Quiet(states[0])
    && forall i {:trigger steps[i]} :: 0 <= i < |steps| ==>
         CalledBy(users, steps[i]) && Enabled(w, states[i], steps[i]) && states[i + 1] == Next(w, states[i], steps[i])
  }

  lemma RunStep(w: World, users: set<User>, states: seq<State>, steps: seq<Step>, n: nat)
    requires Run(w, users, states, steps) && n < |steps|
    ensures |states| == |steps| + 1 && CalledBy(users, steps[n]) && Distinct(users)
    ensures Enabled(w, states[n], steps[n]) && states[n + 1] == Next(w, states[n], steps[n])
  {
    hide Next;
    hide Enabled;
  }

  // ---- What every step keeps --------------------------------------------------------------

  /** The caller wrote the message or has at some time unlocked it. */
  predicate MayRead(s: State, id: Msg, user: User)
    requires id in s.archive
  {
    user != "" && (s.archive[id].author == user || (id, user) in s.granted)
  }

  /** `x` carries the real content of a message of the archive. */
  predicate Real(s: State, x: Message)
  {
    x.id in s.archive && SameCore(x, s.archive[x.id])
  }

  /** Real content the caller may read. */
  predicate Open(s: State, user: User, x: Message)
  {
    Real(s, x) && (x.kind == Mystery ==> MayRead(s, x.id, user))
  }

  /** A masked mystery: not the caller's own, and unless it is gone, or its lookup failed, not
      unlocked when the call began. */
  predicate Withheld(s: State, f: Flight, x: Message)
  {
    && x.id in s.archive && SameFrame(x, s.archive[x.id]) && x.kind == Mystery && x.content == MASK
    && (f.q.user == "" || x.author != f.q.user)
    && (f.q.user == "" || x.id !in s.store.messages || (x.id, f.q.user) !in f.known || x.id in f.failed)
  }

  predicate Handled(s: State, f: Flight, x: Message)
  {
    Open(s, f.q.user, x) || (f.masked && Withheld(s, f, x))
  }

  /** How much of the slice has passed the masking loop. */
  function Passed(f: Flight): nat { if f.phase == Begun || f.phase == Fetched then f.next else |f.ms| }

  ghost predicate FlightOk(users: set<User>, s: State, f: Flight)
  {
    && WellFormed(f.q.user) && (f.q.user == "" || f.q.user in users)
    && Passed(f) <= |f.ms| && (f.phase == Begun ==> f.ms == [])
    && (forall k :: 0 <= k < Passed(f) ==> Handled(s, f, f.ms[k]))
    && (forall k :: Passed(f) <= k < |f.ms| ==> Real(s, f.ms[k]))
    && (forall p :: p in f.known ==> p in s.store.unlocks || p.0 !in s.store.messages)
    && (forall p :: p in f.known ==> p.0 in s.store.everUsed)
  }

  /** A cached message is real; a mystery only under the key of users who may read it. */
  ghost predicate CachedReal(users: set<User>, s: State, key: Key, x: Message)
  {
    && Real(s, x)
    && (x.kind == Mystery ==> key.uid != "anon")
    && (x.kind == Mystery ==> forall u :: u in users && WellFormed(u) && Prefix(u) == key.uid ==> MayRead(s, x.id, u))
  }

  ghost predicate EntryReal(users: set<User>, s: State, key: Key, value: seq<Message>)
  {
    forall x :: x in value ==> CachedReal(users, s, key, x)
  }

  ghost predicate Tables(s: State)
  {
    && s.store.messages.Keys <= s.archive.Keys <= s.store.everUsed
    && (forall id :: id in s.store.messages ==> SameCore(s.store.messages[id], s.archive[id]))
    && s.store.unlocks <= s.granted
    && (forall p :: p in s.store.unlocks ==> p.0 in s.store.messages)
    && (!s.enabled ==> s.cache == map[])
  }

  ghost predicate Flights(users: set<User>, s: State)
  {
    forall t :: t in s.flights ==> FlightOk(users, s, s.flights[t])
  }

  ghost predicate Entries(users: set<User>, s: State)
  {
    forall key :: key in s.cache ==> EntryReal(users, s, key, s.cache[key].value)
  }

  ghost predicate Inv(users: set<User>, s: State)
  {
    Tables(s) && Flights(users, s) && Entries(users, s)
  }

  /** History only grows, and what is gone stays gone. */
  ghost predicate Grows(s: State, s': State)
  {
    && s.store.everUsed <= s'.store.everUsed && s.granted <= s'.granted
    && (forall id :: id in s.archive ==> id in s'.archive && s'.archive[id] == s.archive[id])
    && (forall id :: id in s.store.everUsed && id !in s.store.messages ==> id !in s'.store.messages)
    && (forall p :: p in s.store.unlocks ==> p in s'.store.unlocks || p.0 !in s'.store.messages)
  }

  lemma GrowsWrites(w: World, s: State, step: Step)
    requires Tables(s) && Enabled(w, s, step) && (step.Insert? || step.Erase? || step.Unlock? || step.Interact?)
    ensures Grows(s, Next(w, s, step)) && Tables(Next(w, s, step))
    ensures Next(w, s, step).flights == s.flights && Next(w, s, step).cache == s.cache
  {
    if step.Insert? || step.Erase? {
      GrowsCommit(w, s, step);
    }
  }

  lemma GrowsCommit(w: World, s: State, step: Step)
    requires Tables(s) && Enabled(w, s, step) && (step.Insert? || step.Erase?)
    ensures Grows(s, Next(w, s, step)) && Tables(Next(w, s, step))
  {
  }

  /** The other steps leave the tables alone. */
  lemma GrowsOthers(w: World, s: State, step: Step)
    requires Enabled(w, s, step) && !(step.Insert? || step.Erase? || step.Unlock? || step.Interact?)
    ensures var s' := Next(w, s, step);
            s'.store == s.store && s'.archive == s.archive && s'.granted == s.granted && s'.enabled == s.enabled
  {
    hide Masked;
    hide Started;
    hide SqlAnswer;
    hide Ranked;
    hide BatchAnswer;
  }

  /** What the steps outside calls and writes do: time passes, an unlock is recorded, likes, reactions and
      moderation move. */
  lemma OthersAct(w: World, s: State, step: Step)
    requires Enabled(w, s, step) && (step.Tick? || step.Unlock? || step.Interact?)
    ensures var s' := Next(w, s, step);
            && s'.cache == s.cache && s'.flights == s.flights
            && (step.Tick? ==> step.seconds >= 0.0 && s'.now == s.now + step.seconds && s'.store == s.store)
            && (step.Unlock? ==> s'.store == s.store.(unlocks := s.store.unlocks + {(step.id, step.user)}))
            && (step.Interact? ==> s'.store.messages == step.messages && s'.store.reactions == step.reactions)
  {
  }

  lemma HandledStays(s: State, s': State, f: Flight, x: Message)
    requires Tables(s) && Grows(s, s') && Handled(s, f, x)
    ensures Handled(s', f, x)
  {
  }

  lemma FlightStays(users: set<User>, s: State, s': State, f: Flight)
    requires Tables(s) && Grows(s, s') && FlightOk(users, s, f)
    ensures FlightOk(users, s', f)
  {
    forall k | 0 <= k < Passed(f) ensures Handled(s', f, f.ms[k]) {
      HandledStays(s, s', f, f.ms[k]);
    }
    hide Handled;
  }

  lemma EntryStays(users: set<User>, s: State, s': State, key: Key, value: seq<Message>)
    requires Grows(s, s') && EntryReal(users, s, key, value)
    ensures EntryReal(users, s', key, value)
  {
    forall x | x in value ensures CachedReal(users, s', key, x) {
      assert CachedReal(users, s, key, x);
    }
  }

  lemma InvWrites(w: World, users: set<User>, s: State, step: Step)
    requires Inv(users, s) && Enabled(w, s, step) && (step.Insert? || step.Erase? || step.Unlock? || step.Interact?)
    ensures Inv(users, Next(w, s, step))
  {
    GrowsWrites(w, s, step);
    hide Next;
    hide Enabled;
    hide Tables;
    hide FlightOk;
    hide EntryReal;
    Reassemble(users, s, Next(w, s, step));
  }

  // ---- The steps of one call ----------------------------------------------------------------

  lemma StartedOk(w: World, users: set<User>, s: State, q: Query, getOk: bool)
    requires Inv(users, s) && Distinct(users) && WellFormed(q.user) && (q.user == "" || q.user in users)
    ensures FlightOk(users, s, Started(w, s, q, getOk))
  {
    if Hit(w, View(s), q, getOk) {
      var key := GridKey(w, q);
      var f := Started(w, s, q, getOk);
      assert EntryReal(users, s, key, s.cache[key].value);
      forall k | 0 <= k < |f.ms| ensures Handled(s, f, f.ms[k]) {
        assert f.ms[k] in s.cache[key].value;
        assert CachedReal(users, s, key, f.ms[k]);
      }
    }
  }

  lemma FetchedReal(w: World, s: State, q: Query, rows: seq<Message>, x: Message)
    requires Tables(s) && x in Rows(q, rows)
    requires SqlAnswer(w.dist, s.store.messages, q.lat, q.lng, q.radius, q.limit, q.user, s.now, rows)
    ensures Real(s, x)
  {
    var r := Reply(rows, [], false, {});
    FoundIsCandidate(w, s.store, q, s.now, r, x);
  }

  lemma FetchOk(w: World, users: set<User>, s: State, t: nat, rows: seq<Message>)
    requires Inv(users, s) && Enabled(w, s, Fetch(t, rows))
    ensures FlightOk(users, s, Next(w, s, Fetch(t, rows)).flights[t])
  {
    var f := s.flights[t];
    assert FlightOk(users, s, f);
    var ms := Rows(f.q, rows);
    forall k | 0 <= k < |ms| ensures Real(s, ms[k]) {
      assert ms[k] in ms;
      FetchedReal(w, s, f.q, rows, ms[k]);
    }
    hide Rows;
    hide SqlAnswer;
    hide FlightOk;
    hide Real;
    SliceOk(users, s, f, ms);
  }

  lemma SliceOk(users: set<User>, s: State, f: Flight, ms: seq<Message>)
    requires FlightOk(users, s, f) && f.phase == Begun && forall k :: 0 <= k < |ms| ==> Real(s, ms[k])
    ensures FlightOk(users, s, f.(phase := Fetched, ms := ms, base := ms))
  {
    hide Real;
    hide Handled;
  }

  lemma MaskedOne(s: State, users: set<User>, f: Flight, ok: bool)
    requires Tables(s) && FlightOk(users, s, f) && f.phase == Fetched && f.next < |f.ms|
    ensures Handled(s, Masked(s, f, ok), Masked(s, f, ok).ms[f.next])
  {
    assert Real(s, f.ms[f.next]);
  }

  /** Looking up one more message leaves what was decided about an earlier one. */
  lemma DecidedStays(s: State, f: Flight, ok: bool, x: Message)
    requires f.next < |f.ms| && Handled(s, f, x)
    ensures Handled(s, Masked(s, f, ok), x)
  {
  }

  lemma MaskOk(s: State, users: set<User>, f: Flight, ok: bool)
    requires Tables(s) && FlightOk(users, s, f) && f.phase == Fetched && f.next < |f.ms|
    ensures FlightOk(users, s, Masked(s, f, ok))
  {
    var f' := Masked(s, f, ok);
    MaskedOne(s, users, f, ok);
    forall k | 0 <= k < f.next ensures Handled(s, f', f'.ms[k]) {
      DecidedStays(s, f, ok, f.ms[k]);
    }
    hide Handled;
    hide Real;
    hide MaskOne;
    hide MustMask;
  }

  lemma EnrichedHandled(s: State, f: Flight, f': Flight, r: Reply, x: Message)
    requires Handled(s, f, x)
    requires f'.q == f.q && f'.masked == f.masked && f'.known == f.known && f'.failed == f.failed
    ensures Handled(s, f', EnrichOne(r, x))
  {
  }

  lemma EnrichOk(s: State, users: set<User>, f: Flight, r: Reply)
    requires FlightOk(users, s, f) && f.phase == Fetched && f.next == |f.ms|
    ensures FlightOk(users, s, f.(phase := Enriched, ms := EnrichAll(r, f.ms), reply := r))
  {
    var f' := f.(phase := Enriched, ms := EnrichAll(r, f.ms), reply := r);
    forall k | 0 <= k < |f'.ms| ensures Handled(s, f', f'.ms[k]) {
      EnrichedHandled(s, f, f', r, f.ms[k]);
    }
    hide Handled;
    hide EnrichOne;
  }

  lemma SortOk(s: State, users: set<User>, f: Flight, out: seq<Message>)
    requires FlightOk(users, s, f) && f.phase == Enriched && multiset(out) == multiset(f.ms)
    ensures FlightOk(users, s, f.(phase := Sorted, ms := out))
  {
    var f' := f.(phase := Sorted, ms := out);
    assert forall x :: Handled(s, f, x) ==> Handled(s, f', x);
    hide Handled;
    forall k | 0 <= k < |out| ensures Handled(s, f', out[k]) {
      assert out[k] in multiset(out);
      assert out[k] in multiset(f.ms);
      assert out[k] in f.ms;
    }
  }

  lemma ReturnOk(s: State, users: set<User>, f: Flight)
    requires FlightOk(users, s, f) && f.phase == Sorted
    ensures FlightOk(users, s, f.(phase := Returned))
  {
    var f' := f.(phase := Returned);
    assert forall x :: Handled(s, f, x) ==> Handled(s, f', x);
    hide Handled;
  }

  /** The rule "do not store if masked" makes every stored slice real throughout. */
  lemma StoredReal(w: World, users: set<User>, s: State, f: Flight)
    requires Distinct(users) && FlightOk(users, s, f) && f.phase == Sorted && !f.masked
    ensures EntryReal(users, s, GridKey(w, f.q), f.ms)
  {
    forall x | x in f.ms ensures CachedReal(users, s, GridKey(w, f.q), x) {
      var k :| 0 <= k < |f.ms| && f.ms[k] == x;
      assert Handled(s, f, f.ms[k]);
    }
  }

  /** Every step of a call leaves that call in order. */
  lemma CallOk(w: World, users: set<User>, s: State, step: Step)
    requires Inv(users, s) && Distinct(users) && Enabled(w, s, step) && CalledBy(users, step)
    requires step.Lookup? || step.Fetch? || step.MaskNext? || step.Enrich? || step.Sort? || step.Finish?
    ensures step.t in Next(w, s, step).flights && FlightOk(users, s, Next(w, s, step).flights[step.t])
  {
    hide FlightOk;
    hide Started;
    hide Masked;
    hide SqlAnswer;
    hide BatchAnswer;
    hide Tables;
    hide Entries;
    assert step.t in s.flights ==> FlightOk(users, s, s.flights[step.t]);
    hide Flights;
    match step
    case Lookup(t, q, getOk) => StartedOk(w, users, s, Normalize(q), getOk);
    case Fetch(t, rows) => FetchOk(w, users, s, t, rows);
    case MaskNext(t, ok) => MaskOk(s, users, s.flights[t], ok);
    case Enrich(t, batch, ok) => EnrichOk(s, users, s.flights[t], Reply([], batch, ok, {}));
    case Sort(t, out) => SortOk(s, users, s.flights[t], out);
    case Finish(t, setOk) => ReturnOk(s, users, s.flights[t]);
  }

  /** Only Drop and Finish touch the cache: the one removes, the other adds a real entry. */
  lemma CacheOk(w: World, users: set<User>, s: State, step: Step)
    requires Inv(users, s) && Distinct(users) && Enabled(w, s, step)
    requires !(step.Insert? || step.Erase? || step.Unlock? || step.Interact?)
    ensures var s' := Next(w, s, step);
            && (forall key :: key in s'.cache ==> EntryReal(users, s, key, s'.cache[key].value))
            && (!s'.enabled ==> s'.cache == map[])
  {
    hide FlightOk;
    hide Started;
    hide Masked;
    hide SqlAnswer;
    hide BatchAnswer;
    hide Ranked;
    hide EntryReal;
    if step.Finish? {
      var f := s.flights[step.t];
      assert FlightOk(users, s, f);
      if !f.masked { StoredReal(w, users, s, f); }
    }
  }

  lemma SameTables(s: State, s': State)
    requires Tables(s) && s'.store == s.store && s'.archive == s.archive && s'.granted == s.granted
    requires !s'.enabled ==> s'.cache == map[]
    ensures Grows(s, s') && Tables(s')
  {
  }

  /** Steps outside any call leave all calls alone, a call's step the other calls. */
  lemma FlightsAfter(w: World, users: set<User>, s: State, step: Step)
    requires Inv(users, s) && Distinct(users) && Enabled(w, s, step) && CalledBy(users, step)
    requires !(step.Insert? || step.Erase? || step.Unlock? || step.Interact?)
    ensures var s' := Next(w, s, step); forall t :: t in s'.flights ==> FlightOk(users, s, s'.flights[t])
  {
    hide FlightOk;
    var s' := Next(w, s, step);
    if step.Tick? || step.Scan? || step.Drop? {
      assert s'.flights == s.flights;
    } else {
      CallOk(w, users, s, step);
      hide Next;
      hide Enabled;
      forall t | t in s'.flights ensures FlightOk(users, s, s'.flights[t]) {
        if t != step.t { UntouchedStep(w, s, step, t); }
      }
    }
  }

  lemma Reassemble(users: set<User>, s: State, s': State)
    requires Tables(s) && Tables(s') && Grows(s, s')
    requires forall t :: t in s'.flights ==> FlightOk(users, s, s'.flights[t])
    requires forall key :: key in s'.cache ==> EntryReal(users, s, key, s'.cache[key].value)
    ensures Inv(users, s')
  {
    hide Tables;
    hide Grows;
    hide FlightOk;
    hide EntryReal;
    forall t | t in s'.flights ensures FlightOk(users, s', s'.flights[t]) {
      FlightStays(users, s, s', s'.flights[t]);
    }
    forall key | key in s'.cache ensures EntryReal(users, s', key, s'.cache[key].value) {
      EntryStays(users, s, s', key, s'.cache[key].value);
    }
  }

  lemma InvOthers(w: World, users: set<User>, s: State, step: Step)
    requires Inv(users, s) && Distinct(users) && Enabled(w, s, step) && CalledBy(users, step)
    requires !(step.Insert? || step.Erase? || step.Unlock? || step.Interact?)
    ensures Inv(users, Next(w, s, step))
  {
    hide Next;
    hide Enabled;
    hide Tables;
    hide FlightOk;
    hide EntryReal;
    var s' := Next(w, s, step);
    GrowsOthers(w, s, step);
    CacheOk(w, users, s, step);
    SameTables(s, s');
    FlightsAfter(w, users, s, step);
    Reassemble(users, s, s');
  }

  lemma {:induction false} RunInv(w: World, users: set<User>, states: seq<State>, steps: seq<Step>, n: nat)
    requires Run(w, users, states, steps) && n < |states|
    ensures Inv(users, states[n])
  {
    if n > 0 {
      hide *;
      RunLength(w, users, states, steps);
      RunInv(w, users, states, steps, n - 1);
      RunStep(w, users, states, steps, n - 1);
      var step := steps[n - 1];
      if step.Insert? || step.Erase? || step.Unlock? || step.Interact? {
        InvWrites(w, users, states[n - 1], step);
      } else {
        InvOthers(w, users, states[n - 1], step);
      }
    }
  }

  lemma RunStart(w: World, users: set<User>, states: seq<State>, steps: seq<Step>)
    requires Run(w, users, states, steps)
    ensures |states| > 0 && states[0].flights == map[] && states[0].cache == map[] && Writes(states[0])
  {
  }

  lemma RunLength(w: World, users: set<User>, states: seq<State>, steps: seq<Step>)
    requires Run(w, users, states, steps)
    ensures |states| == |steps| + 1
  {
  }

  // ---- Content, with calls racing -----------------------------------------------------------

  /** In every reachable state no entry holds a masked mystery: every cached message carries its real
      content, a mystery only under the key of users who may read it, none under the anonymous key. */
  lemma NoMaskIsEverCached(w: World, users: set<User>, states: seq<State>, steps: seq<Step>, n: nat, key: Key, x: Message)
    requires Run(w, users, states, steps) && n < |states|
    requires key in states[n].cache && x in states[n].cache[key].value
    ensures Real(states[n], x)
    ensures x.kind == Mystery ==> key.uid != "anon"
    ensures x.kind == Mystery ==>
              forall u :: u in users && WellFormed(u) && Prefix(u) == key.uid ==> MayRead(states[n], x.id, u)
  {
    RunInv(w, users, states, steps, n);
    assert EntryReal(users, states[n], key, states[n].cache[key].value);
    assert CachedReal(users, states[n], key, x);
  }

  /** Whatever a call returns, hit or miss: a mystery with real content was written or unlocked by the
      caller, and nothing but a mystery of somebody else is ever masked. */
  lemma ReturnedContent(w: World, users: set<User>, states: seq<State>, steps: seq<Step>, n: nat, t: nat, x: Message)
    requires Run(w, users, states, steps) && n < |states| && At(states[n], t, Returned) && x in states[n].flights[t].ms
    ensures x.id in states[n].archive && SameFrame(x, states[n].archive[x.id])
    ensures || (x.content == states[n].archive[x.id].content && (x.kind == Mystery ==> MayRead(states[n], x.id, states[n].flights[t].q.user)))
            || (x.kind == Mystery && x.content == MASK
                && (states[n].flights[t].q.user == "" || x.author != states[n].flights[t].q.user))
  {
    RunInv(w, users, states, steps, n);
    var f := states[n].flights[t];
    assert FlightOk(users, states[n], f);
    var k :| 0 <= k < |f.ms| && f.ms[k] == x;
    assert Handled(states[n], f, f.ms[k]);
  }

  /** Across steps history only grows, for as long as the run goes on. */
  lemma GrowsStep(w: World, users: set<User>, states: seq<State>, steps: seq<Step>, n: nat)
    requires Run(w, users, states, steps) && n < |steps|
    ensures |states| == |steps| + 1 && Grows(states[n], states[n + 1])
  {
    hide *;
    RunStep(w, users, states, steps, n);
    RunInv(w, users, states, steps, n);
    TablesOfInv(users, states[n]);
    var step := steps[n];
    if step.Insert? || step.Erase? || step.Unlock? || step.Interact? {
      GrowsWrites(w, states[n], step);
    } else {
      GrowsOthers(w, states[n], step);
      UnchangedGrows(states[n], states[n + 1]);
    }
  }

  lemma TablesOfInv(users: set<User>, s: State)
    requires Inv(users, s)
    ensures Tables(s)
  {
  }

  lemma UnchangedGrows(s: State, s': State)
    requires s'.store == s.store && s'.archive == s.archive && s'.granted == s.granted
    ensures Grows(s, s')
  {
  }

  /** An unlock lasts as long as its message. */
  lemma {:induction false} UnlockLasts(w: World, users: set<User>, states: seq<State>, steps: seq<Step>, m: nat, n: nat, id: Msg, u: User)
    requires Run(w, users, states, steps) && m <= n < |states|
    requires id in states[m].store.everUsed && (id, u) in states[m].store.unlocks && id in states[n].store.messages
    ensures (id, u) in states[n].store.unlocks
    decreases n - m
  {
    if m < n {
      hide Run;
      RunLength(w, users, states, steps);
      GrowsStep(w, users, states, steps, m);
      if (id, u) !in states[m + 1].store.unlocks {
        GoneForGood(w, users, states, steps, m + 1, n, id);
      } else {
        UnlockLasts(w, users, states, steps, m + 1, n, id, u);
      }
    }
  }

  lemma {:induction false} GoneForGood(w: World, users: set<User>, states: seq<State>, steps: seq<Step>, m: nat, n: nat, id: Msg)
    requires Run(w, users, states, steps) && m <= n < |states|
    requires id in states[m].store.everUsed && id !in states[m].store.messages
    ensures id !in states[n].store.messages
    decreases n - m
  {
    if m < n {
      hide Run;
      RunLength(w, users, states, steps);
      GrowsStep(w, users, states, steps, m);
      GoneForGood(w, users, states, steps, m + 1, n, id);
    }
  }

  /** A call keeps its query and what was unlocked when it began. */
  lemma CallKeeps(w: World, s: State, step: Step, t: nat)
    requires Enabled(w, s, step) && t in s.flights
    ensures t in Next(w, s, step).flights
    ensures Next(w, s, step).flights[t].q == s.flights[t].q && Next(w, s, step).flights[t].known == s.flights[t].known
  {
    hide SqlAnswer;
    hide BatchAnswer;
    hide Ranked;
    hide MaskOne;
    hide MustMask;
  }

  lemma {:induction false} CallKept(w: World, users: set<User>, states: seq<State>, steps: seq<Step>, b: nat, n: nat, t: nat)
    requires Run(w, users, states, steps) && b <= n < |states| && t in states[b].flights
    ensures t in states[n].flights
    ensures states[n].flights[t].q == states[b].flights[t].q && states[n].flights[t].known == states[b].flights[t].known
    decreases n
  {
    hide *;
    if b < n {
      RunLength(w, users, states, steps);
      CallKept(w, users, states, steps, b, n - 1, t);
      RunStep(w, users, states, steps, n - 1);
      CallKeeps(w, states[n - 1], steps[n - 1], t);
    }
  }

  lemma StartOf(w: World, s: State, step: Step)
    requires Enabled(w, s, step) && step.Lookup?
    ensures step.t in Next(w, s, step).flights
    ensures Next(w, s, step).flights[step.t].q == Normalize(step.q)
    ensures Next(w, s, step).flights[step.t].known == s.store.unlocks
  {
  }

  /** Read your writes with everything racing: a call begun after the user's unlock never shows the
      message masked, through any cache state and any interleaving, as long as the message exists
      when the call returns and its lookup did not fail. */
  lemma UnlockIsVisibleToLaterCalls(w: World, users: set<User>, states: seq<State>, steps: seq<Step>,
                                    m: nat, b: nat, n: nat, x: Message)
    requires Run(w, users, states, steps) && m < b < |steps| && b < n < |states|
    requires steps[m].Unlock? && steps[b].Lookup? && steps[b].q.user == steps[m].user
    requires At(states[n], steps[b].t, Returned) && x in states[n].flights[steps[b].t].ms
    requires x.id == steps[m].id && x.id in states[n].store.messages && x.id !in states[n].flights[steps[b].t].failed
    ensures x.content == states[n].store.messages[x.id].content
  {
    var t, id, u := steps[b].t, steps[m].id, steps[m].user;
    hide Run;
    RunStep(w, users, states, steps, m);
    RunInv(w, users, states, steps, m);
    assert (id, u) in states[m + 1].store.unlocks && id in states[m + 1].store.everUsed && u != "";
    RunStep(w, users, states, steps, b);
    StartOf(w, states[b], steps[b]);
    hide Next;
    hide Enabled;
    CallKept(w, users, states, steps, b + 1, n, t);
    LiveBefore(w, users, states, steps, m + 1, b, n, id);
    UnlockLasts(w, users, states, steps, m + 1, b, id, u);
    RunInv(w, users, states, steps, n);
    ReturnedOpen(users, states[n], t, x);
  }

  lemma ReturnedOpen(users: set<User>, s: State, t: nat, x: Message)
    requires Inv(users, s) && At(s, t, Returned) && x in s.flights[t].ms && x.id in s.store.messages
    requires s.flights[t].q.user != "" && (x.id, s.flights[t].q.user) in s.flights[t].known && x.id !in s.flights[t].failed
    ensures x.content == s.store.messages[x.id].content
  {
    var f := s.flights[t];
    assert FlightOk(users, s, f);
    var k :| 0 <= k < |f.ms| && f.ms[k] == x;
    assert Handled(s, f, f.ms[k]);
  }

  /** A message used at `m` and live at `n` was live in between. */
  lemma LiveBefore(w: World, users: set<User>, states: seq<State>, steps: seq<Step>, m: nat, b: nat, n: nat, id: Msg)
    requires Run(w, users, states, steps) && m <= b <= n < |states|
    requires id in states[m].store.everUsed && id in states[n].store.messages
    ensures id in states[b].store.messages
  {
    hide Run;
    UsedForGood(w, users, states, steps, m, b, id);
    if id !in states[b].store.messages {
      GoneForGood(w, users, states, steps, b, n, id);
    }
  }

  lemma {:induction false} UsedForGood(w: World, users: set<User>, states: seq<State>, steps: seq<Step>, m: nat, n: nat, id: Msg)
    requires Run(w, users, states, steps) && m <= n < |states| && id in states[m].store.everUsed
    ensures id in states[n].store.everUsed
    decreases n - m
  {
    if m < n {
      hide Run;
      RunLength(w, users, states, steps);
      GrowsStep(w, users, states, steps, m);
      UsedForGood(w, users, states, steps, m + 1, n, id);
    }
  }

  // ---- Where a hit comes from ---------------------------------------------------------------

  predicate Touches(step: Step, t: nat)
  {
    (step.Lookup? || step.Fetch? || step.MaskNext? || step.Enrich? || step.Sort? || step.Finish?) && step.t == t
  }

  lemma UntouchedStep(w: World, s: State, step: Step, t: nat)
    requires Enabled(w, s, step) && t in Next(w, s, step).flights && !Touches(step, t)
    ensures t in s.flights && Next(w, s, step).flights[t] == s.flights[t]
  {
    hide SqlAnswer;
    hide BatchAnswer;
    hide Ranked;
    hide Masked;
    hide Started;
  }

  /** The last step of call `t` before state `n`. */
  lemma {:induction false} LastTouch(w: World, users: set<User>, states: seq<State>, steps: seq<Step>, n: nat, t: nat) returns (i: nat)
    requires Run(w, users, states, steps) && n < |states| && t in states[n].flights
    ensures i < n && |states| == |steps| + 1 && Touches(steps[i], t)
    ensures t in states[i + 1].flights && states[i + 1].flights[t] == states[n].flights[t]
  {
    hide *;
    RunStart(w, users, states, steps);
    RunLength(w, users, states, steps);
    RunStep(w, users, states, steps, n - 1);
    if Touches(steps[n - 1], t) {
      i := n - 1;
    } else {
      UntouchedStep(w, states[n - 1], steps[n - 1], t);
      i := LastTouch(w, users, states, steps, n - 1, t);
    }
  }

  /** How a step of the call leads to its present phase. */
  lemma PhaseStep(w: World, s: State, step: Step, t: nat)
    requires Enabled(w, s, step) && Touches(step, t)
    ensures t in Next(w, s, step).flights
    ensures var f' := Next(w, s, step).flights[t];
            match f'.phase
            case Sorted =>
              && step.Sort? && At(s, t, Enriched) && f' == s.flights[t].(phase := Sorted, ms := step.out)
              && Ranked(w.curves, f'.q.order, s.now, s.flights[t].ms, step.out)
            case Enriched =>
              && step.Enrich? && At(s, t, Fetched) && f'.q == s.flights[t].q && f'.base == s.flights[t].base && f'.masked == s.flights[t].masked
              && f'.reply == Reply([], step.batch, step.ok, {}) && f'.ms == EnrichAll(f'.reply, s.flights[t].ms)
              && (step.ok ==> BatchAnswer(s.store.reactions, Ids(s.flights[t].ms), f'.q.user, step.batch))
            case Fetched =>
              || (step.MaskNext? && At(s, t, Fetched) && f'.q == s.flights[t].q && f'.base == s.flights[t].base
                  && (!f'.masked ==> !s.flights[t].masked && f'.ms == s.flights[t].ms))
              || (step.Fetch? && At(s, t, Begun) && f'.q == s.flights[t].q && f'.ms == f'.base == Rows(f'.q, step.rows)
                  && SqlAnswer(w.dist, s.store.messages, f'.q.lat, f'.q.lng, f'.q.radius, f'.q.limit, f'.q.user, s.now, step.rows))
            case Begun => true
            case Returned => true
  {
    hide SqlAnswer;
    hide BatchAnswer;
    hide Ranked;
    hide Rows;
  }

  /** Call `t`, nothing masked so far, fetched its slice at step `r`. */
  ghost predicate FetchedAt(w: World, s: State, step: Step, f: Flight)
  {
    && step.Fetch? && f.ms == f.base == Rows(f.q, step.rows)
    && SqlAnswer(w.dist, s.store.messages, f.q.lat, f.q.lng, f.q.radius, f.q.limit, f.q.user, s.now, step.rows)
  }

  lemma {:induction false} FetchOrigin(w: World, users: set<User>, states: seq<State>, steps: seq<Step>, n: nat, t: nat) returns (r: nat)
    requires Run(w, users, states, steps) && n < |states| && At(states[n], t, Fetched) && !states[n].flights[t].masked
    ensures r < n && |states| == |steps| + 1 && Touches(steps[r], t)
    ensures FetchedAt(w, states[r], steps[r], states[n].flights[t])
  {
    hide SqlAnswer;
    hide Run;
    hide Next;
    hide Enabled;
    hide Rows;
    var i := LastTouch(w, users, states, steps, n, t);
    RunStep(w, users, states, steps, i);
    PhaseStep(w, states[i], steps[i], t);
    if steps[i].Fetch? {
      r := i;
    } else {
      r := FetchOrigin(w, users, states, steps, i, t);
    }
  }

  /** `out` was assembled by one call: rows read at `r`, reactions at `e`, sorted at `o`, nothing masked. */
  ghost predicate Assembled(w: World, states: seq<State>, steps: seq<Step>, r: nat, e: nat, o: nat, q: Query, out: seq<Message>)
    requires |states| == |steps| + 1
  {
    && r < e < o < |steps| && steps[r].Fetch? && steps[e].Enrich?
    && SqlAnswer(w.dist, states[r].store.messages, q.lat, q.lng, q.radius, q.limit, q.user, states[r].now, steps[r].rows)
    && var base := Rows(q, steps[r].rows);
       && (steps[e].ok ==> BatchAnswer(states[e].store.reactions, Ids(base), q.user, steps[e].batch))
       && Ranked(w.curves, q.order, states[o].now, EnrichAll(Reply([], steps[e].batch, steps[e].ok, {}), base), out)
  }

  lemma SortOrigin(w: World, users: set<User>, states: seq<State>, steps: seq<Step>, n: nat, t: nat) returns (r: nat, e: nat, o: nat)
    requires Run(w, users, states, steps) && n < |states| && At(states[n], t, Sorted) && !states[n].flights[t].masked
    ensures |states| == |steps| + 1 && o < n
    ensures Assembled(w, states, steps, r, e, o, states[n].flights[t].q, states[n].flights[t].ms)
    ensures r < e < o && Touches(steps[r], t) && Touches(steps[e], t) && Touches(steps[o], t)
  {
    hide SqlAnswer;
    hide BatchAnswer;
    hide Ranked;
    hide Run;
    hide Next;
    hide Enabled;
    hide Rows;
    o := LastTouch(w, users, states, steps, n, t);
    RunStep(w, users, states, steps, o);
    PhaseStep(w, states[o], steps[o], t);
    e := LastTouch(w, users, states, steps, o, t);
    RunStep(w, users, states, steps, e);
    PhaseStep(w, states[e], steps[e], t);
    r := FetchOrigin(w, users, states, steps, e, t);
  }

  /** Step `step` stored the entry. */
  ghost predicate StoredBy(w: World, s: State, step: Step, key: Key, entry: Entry)
  {
    && step.Finish? && At(s, step.t, Sorted) && !s.flights[step.t].masked && WellFormed(s.flights[step.t].q.user)
    && Cacheable(s.flights[step.t].q) && key == GridKey(w, s.flights[step.t].q) && entry == MakeEntry(s, s.flights[step.t].ms)
  }

  lemma EntryStep(w: World, s: State, step: Step, key: Key)
    requires Enabled(w, s, step) && key in Next(w, s, step).cache
    ensures var s' := Next(w, s, step);
            && s'.ttl == s.ttl && s.now <= s'.now
            && (|| StoredBy(w, s, step, key, s'.cache[key])
                || (key in s.cache && s'.cache[key] == s.cache[key] && (step.Drop? ==> key !in s.scans[step.write])))
  {
    hide SqlAnswer;
    hide BatchAnswer;
    hide Ranked;
    hide Masked;
    hide Started;
  }

  /** The bookkeeping of writes: finished after scanned after committed. */
  ghost predicate Writes(s: State)
  {
    s.finished <= s.scanned <= s.committed && s.scans.Keys == s.scanned
  }

  lemma WritesStep(w: World, s: State, step: Step)
    requires Enabled(w, s, step)
    ensures var s' := Next(w, s, step);
            && s'.committed == (if step.Insert? || step.Erase? then s.committed + {step.write} else s.committed)
            && s'.scanned == (if step.Scan? then s.scanned + {step.write} else s.scanned)
            && s'.finished == (if step.Drop? then s.finished + {step.write} else s.finished)
            && s'.scans == (if step.Scan? then s.scans[step.write := step.keys] else s.scans)
    ensures step.Insert? || step.Erase? ==> step.write !in s.committed
    ensures step.Scan? ==> step.write in s.committed && step.write !in s.scanned
    ensures step.Drop? ==> step.write in s.scans
  {
    hide SqlAnswer;
    hide BatchAnswer;
    hide Ranked;
    hide Masked;
    hide Started;
  }

  lemma {:induction false} RunWrites(w: World, users: set<User>, states: seq<State>, steps: seq<Step>, n: nat)
    requires Run(w, users, states, steps) && n < |states|
    ensures Writes(states[n])
  {
    hide Next;
    hide Enabled;
    hide Run;
    RunStart(w, users, states, steps);
    if n > 0 {
      RunLength(w, users, states, steps);
      RunWrites(w, users, states, steps, n - 1);
      RunStep(w, users, states, steps, n - 1);
      WritesStep(w, states[n - 1], steps[n - 1]);
    }
  }

  /** An entry survives only invalidations that scanned before it was stored; the others in progress
      are already bound to remove it. */
  ghost predicate Survives(s: State, stored: State, key: Key)
  {
    && s.finished <= stored.scanned
    && forall k :: k in s.scans && k !in stored.scanned ==> key in s.scans[k]
  }

  lemma SurvivesStep(w: World, s: State, step: Step, stored: State, key: Key)
    requires Enabled(w, s, step) && Survives(s, stored, key) && Writes(s)
    requires key in s.cache && Live(s.cache[key], s.now) && (step.Drop? ==> key !in s.scans[step.write])
    ensures Survives(Next(w, s, step), stored, key)
  {
    WritesStep(w, s, step);
    assert step.Scan? ==> key in step.keys;
    hide Next;
    hide Enabled;
  }

  lemma {:induction false} EntryOrigin(w: World, users: set<User>, states: seq<State>, steps: seq<Step>, n: nat, key: Key) returns (i: nat)
    requires Run(w, users, states, steps) && n < |states| && key in states[n].cache && Live(states[n].cache[key], states[n].now)
    ensures i < n && |states| == |steps| + 1 && StoredBy(w, states[i], steps[i], key, states[n].cache[key])
    ensures Survives(states[n], states[i], key) && states[i].ttl == states[n].ttl
  {
    hide Run;
    RunStart(w, users, states, steps);
    RunLength(w, users, states, steps);
    RunStep(w, users, states, steps, n - 1);
    RunWrites(w, users, states, steps, n - 1);
    var s, step := states[n - 1], steps[n - 1];
    hide Next;
    hide Enabled;
    WritesStep(w, s, step);
    EntryStep(w, s, step, key);
    if StoredBy(w, s, step, key, states[n].cache[key]) {
      i := n - 1;
    } else {
      hide StoredBy;
      i := EntryOrigin(w, users, states, steps, n - 1, key);
      SurvivesStep(w, s, step, states[i], key);
    }
  }

  /** Steps r, e, o and i of one call of the caller of lookup `n`, about the same rounded place and the
      same radius: it fetched, read reactions, sorted and stored, unmasked, what `n` now finds. */
  ghost predicate StoredResult(w: World, states: seq<State>, steps: seq<Step>, r: nat, e: nat, o: nat, i: nat, n: nat)
    requires |states| == |steps| + 1 && n < |steps| && steps[n].Lookup? && WellFormed(steps[n].q.user)
    requires Hit(w, View(states[n]), Normalize(steps[n].q), steps[n].getOk)
  {
    && r < e < o < i < n && steps[i].Finish? && steps[i].t in states[i].flights
    && Touches(steps[r], steps[i].t) && Touches(steps[e], steps[i].t) && Touches(steps[o], steps[i].t)
    && var q, q' := Normalize(steps[n].q), states[i].flights[steps[i].t].q;
       && WellFormed(q'.user) && SameQuestion(w, q', q)
       && Assembled(w, states, steps, r, e, o, q', Answered(w, states[n], q))
  }

  /** What a hit returns. */
  function Answered(w: World, s: State, q: Query): seq<Message>
    requires WellFormed(q.user) && GridKey(w, q) in s.cache
  {
    s.cache[GridKey(w, q)].value
  }

  /** Cache agreement with calls racing. Every hit returns what one earlier call of the same user about
      the same rounded place and radius assembled, unmasked, and stored less than the TTL ago; and every create or delete
      that has returned by now had scanned the cache before that. */
  lemma RacingHitAgrees(w: World, users: set<User>, states: seq<State>, steps: seq<Step>, n: nat)
    returns (r: nat, e: nat, o: nat, i: nat)
    requires Run(w, users, states, steps) && n < |steps| && steps[n].Lookup? && WellFormed(steps[n].q.user)
    requires |states| == |steps| + 1 && Hit(w, View(states[n]), Normalize(steps[n].q), steps[n].getOk)
    ensures StoredResult(w, states, steps, r, e, o, i, n)
    ensures states[n].ttl > 0.0 ==> states[n].now - states[i].now < states[n].ttl
    ensures states[n].finished <= states[i].scanned
  {
    var q := Normalize(steps[n].q);
    var key := GridKey(w, q);
    i := EntryOrigin(w, users, states, steps, n, key);
    var t := steps[i].t;
    RunStep(w, users, states, steps, n);
    hide Next;
    hide Enabled;
    hide Run;
    RunInv(w, users, states, steps, i);
    assert FlightOk(users, states[i], states[i].flights[t]);
    GridKeyExact(w, users, states[i].flights[t].q, q);
    hide Assembled;
    r, e, o := SortOrigin(w, users, states, steps, i, t);
  }

  /** Committing write `k` is step `c` and no other. */
  lemma {:induction false} CommittedSince(w: World, users: set<User>, states: seq<State>, steps: seq<Step>, c: nat, n: nat)
    requires Run(w, users, states, steps) && c < |steps| && n < |states| && (steps[c].Insert? || steps[c].Erase?)
    ensures steps[c].write in states[n].committed <==> c < n
    decreases if n <= c then c - n else n - c
  {
    hide *;
    RunLength(w, users, states, steps);
    if n == c {
      RunStep(w, users, states, steps, c);
      WritesStep(w, states[c], steps[c]);
    } else if n < c {
      CommittedSince(w, users, states, steps, c, n + 1);
      RunStep(w, users, states, steps, n);
      WritesStep(w, states[n], steps[n]);
    } else {
      RunStep(w, users, states, steps, n - 1);
      WritesStep(w, states[n - 1], steps[n - 1]);
      if c < n - 1 { CommittedSince(w, users, states, steps, c, n - 1); }
    }
  }

  /** A write that had scanned before step `i` was committed before it, so before `r` or in between. */
  lemma CommitWindow(w: World, users: set<User>, states: seq<State>, steps: seq<Step>, r: nat, i: nat, c: nat)
    requires Run(w, users, states, steps) && r < i < |states| && c < |steps| && (steps[c].Insert? || steps[c].Erase?)
    requires steps[c].write in states[i].scanned
    ensures c < r || (r <= c < i && steps[c].write !in states[r].scanned)
  {
    hide Run;
    RunWrites(w, users, states, steps, i);
    RunWrites(w, users, states, steps, r);
    CommittedSince(w, users, states, steps, c, i);
    CommittedSince(w, users, states, steps, c, r);
  }

  /** With everything racing a message still goes only by a delete of its own author. */
  lemma RemovedByAuthor(w: World, users: set<User>, states: seq<State>, steps: seq<Step>, n: nat, id: Msg)
    requires Run(w, users, states, steps) && n < |steps| && |states| == |steps| + 1
    requires id in states[n].store.messages && id !in states[n + 1].store.messages
    ensures steps[n].Erase? && steps[n].id == id && steps[n].user == states[n].store.messages[id].author
  {
    RunStep(w, users, states, steps, n);
    hide Run;
    hide SqlAnswer;
    hide BatchAnswer;
    hide Ranked;
    hide Masked;
    hide Started;
    if !(steps[n].Insert? || steps[n].Erase? || steps[n].Unlock? || steps[n].Interact?) {
      GrowsOthers(w, states[n], steps[n]);
    }
  }

  // ---- What a hit shows of a write that has returned ----------------------------------------

  /** The tables already know of the write: the created id was given out, the deleted row is gone. */
  predicate Reflects(s: State, write: Step)
    requires write.Insert? || write.Erase?
  {
    match write
    case Insert(_, m) => m.id in s.store.everUsed
    case Erase(_, id, _) => id in s.store.everUsed && id !in s.store.messages
  }

  lemma CommitChanges(w: World, s: State, step: Step)
    requires Enabled(w, s, step) && (step.Insert? || step.Erase?) && Tables(s)
    ensures !Reflects(s, step) && Reflects(Next(w, s, step), step)
  {
  }

  /** The tables know of a write at `r` exactly if it was committed before. */
  lemma ReflectedExactly(w: World, users: set<User>, states: seq<State>, steps: seq<Step>, c: nat, r: nat)
    requires Run(w, users, states, steps) && c < |steps| && r < |states| && (steps[c].Insert? || steps[c].Erase?)
    ensures Reflects(states[r], steps[c]) <==> c < r
  {
    RunStep(w, users, states, steps, c);
    RunInv(w, users, states, steps, c);
    CommitChanges(w, states[c], steps[c]);
    hide Run;
    hide Next;
    hide Enabled;
    hide Inv;
    var id := if steps[c].Insert? then steps[c].m.id else steps[c].id;
    if c < r {
      UsedForGood(w, users, states, steps, c + 1, r, id);
      if steps[c].Erase? { GoneForGood(w, users, states, steps, c + 1, r, id); }
    } else if id in states[r].store.everUsed {
      UsedForGood(w, users, states, steps, r, c, id);
      if id !in states[r].store.messages { GoneForGood(w, users, states, steps, r, c, id); }
    }
  }

  /** Enriching and sorting neither add nor lose a message. */
  lemma AssembledLists(w: World, states: seq<State>, steps: seq<Step>, r: nat, e: nat, o: nat, q: Query, out: seq<Message>, id: Msg)
    requires |states| == |steps| + 1 && Assembled(w, states, steps, r, e, o, q, out) && q.hashtag == ""
    ensures Listed(out, id) <==> Listed(steps[r].rows, id)
  {
    var rows, reply := steps[r].rows, Reply([], steps[e].batch, steps[e].ok, {});
    var all := EnrichAll(reply, rows);
    assert Rows(q, rows) == rows;
    assert multiset(out) == multiset(all);
    hide Assembled;
    SameListing(out, all, id);
    if Listed(rows, id) {
      var k :| 0 <= k < |rows| && rows[k].id == id;
      assert all[k] in all && all[k].id == id;
    }
    if Listed(all, id) {
      var k :| 0 <= k < |all| && all[k].id == id;
      assert rows[k] in rows && rows[k].id == id;
    }
  }

  /** A stored message the query could return. */
  ghost predicate InRange(w: World, s: State, q: Query, id: Msg)
  {
    && id in s.store.messages && s.store.messages[id].id == id
    && Candidate(w.dist, s.store.messages, q.lat, q.lng, q.radius, q.user, s.now, Located(w.dist, q.lat, q.lng, s.store.messages[id]))
  }

  function Competing(w: World, s: State, q: Query, id: Msg, nearer: bool): set<Msg>
    requires id in s.store.messages
  {
    Rivals(w.dist, s.store.messages, q.lat, q.lng, q.radius, q.user, s.now, id, nearer)
  }

  lemma RowsList(w: World, s: State, q: Query, rows: seq<Message>, id: Msg)
    requires SqlAnswer(w.dist, s.store.messages, q.lat, q.lng, q.radius, q.limit, q.user, s.now, rows)
    ensures Listed(rows, id) ==> InRange(w, s, q, id)
    ensures InRange(w, s, q, id) && |Competing(w, s, q, id, false)| < q.limit ==> Listed(rows, id)
    ensures InRange(w, s, q, id) && |Competing(w, s, q, id, true)| >= q.limit ==> !Listed(rows, id)
  {
    if Listed(rows, id) {
      var x :| x in rows && x.id == id;
      var k :| 0 <= k < |rows| && rows[k] == x;
      assert Candidate(w.dist, s.store.messages, q.lat, q.lng, q.radius, q.user, s.now, rows[k]);
      assert x == Located(w.dist, q.lat, q.lng, s.store.messages[id]);
    }
    hide SqlAnswer;
    hide Candidate;
    hide Rivals;
    if InRange(w, s, q, id) {
      LimitExact(w.dist, s.store.messages, q.lat, q.lng, q.radius, q.limit, q.user, s.now, rows,
                 Located(w.dist, q.lat, q.lng, s.store.messages[id]));
    }
  }

  /** What a hit shows of a create or delete that has returned, exactly. The entry was read at `r` and
      stored at `i`; the write was committed at `c`.
      - The hit knows of the write if and only if c < r; otherwise the storing call spans it: it read
        before the commit and stored after the write's scan.
      - It lists exactly the messages of the rows read at `r`.
      - A created message is absent if r <= c; if c < r and the query could return it then, it is there
        when fewer than the limit are no farther, and absent when that many are nearer.
      - A deleted message is absent if c < r, and otherwise there exactly if those rows held it. */
  lemma HitOfReturnedWrite(w: World, users: set<User>, states: seq<State>, steps: seq<Step>, n: nat, c: nat)
    returns (r: nat, e: nat, o: nat, i: nat)
    requires Run(w, users, states, steps) && n < |steps| && steps[n].Lookup? && WellFormed(steps[n].q.user)
    requires |states| == |steps| + 1 && Hit(w, View(states[n]), Normalize(steps[n].q), steps[n].getOk)
    requires c < |steps| && (steps[c].Insert? || steps[c].Erase?) && steps[c].write in states[n].finished
    ensures StoredResult(w, states, steps, r, e, o, i, n) && steps[r].Fetch?
    ensures Reflects(states[r], steps[c]) <==> c < r
    ensures c < r || (r <= c < i && steps[c].write in states[i].scanned && steps[c].write !in states[r].scanned)
    ensures var out, q := Answered(w, states[n], Normalize(steps[n].q)), states[i].flights[steps[i].t].q;
            && (forall id :: Listed(out, id) <==> Listed(steps[r].rows, id))
            && (steps[c].Insert? ==> (Listed(out, steps[c].m.id) ==> c < r))
            && (steps[c].Insert? && c < r && InRange(w, states[r], q, steps[c].m.id) ==>
                  && (|Competing(w, states[r], q, steps[c].m.id, false)| < q.limit ==> Listed(out, steps[c].m.id))
                  && (|Competing(w, states[r], q, steps[c].m.id, true)| >= q.limit ==> !Listed(out, steps[c].m.id)))
            && (steps[c].Erase? ==> (Listed(out, steps[c].id) ==> r <= c))
  {
    hide Run;
    hide Competing;
    var out := Answered(w, states[n], Normalize(steps[n].q));
    hide Hit;
    r, e, o, i := RacingHitAgrees(w, users, states, steps, n);
    CommitWindow(w, users, states, steps, r, i, c);
    ReflectedExactly(w, users, states, steps, c, r);
    RunInv(w, users, states, steps, r);
    TablesOfInv(users, states[r]);
    assert states[r].store.messages.Keys <= states[r].store.everUsed;
    hide Inv;
    hide Tables;
    var q := states[i].flights[steps[i].t].q;
    forall id ensures Listed(out, id) <==> Listed(steps[r].rows, id) {
      AssembledLists(w, states, steps, r, e, o, q, out, id);
    }
    assert SqlAnswer(w.dist, states[r].store.messages, q.lat, q.lng, q.radius, q.limit, q.user, states[r].now, steps[r].rows);
    hide Assembled;
    hide SqlAnswer;
    hide Answered;
    RowsList(w, states[r], q, steps[r].rows, if steps[c].Insert? then steps[c].m.id else steps[c].id);
  }

  // ---- The window is real: a create -----------------------------------------------------------

  /** A public message that is always visible: a capsule without a usable date. */
  const CAPSULE: Message := SAMPLE.(kind := Capsule, expires := None)

  const HERE: Query := Normalize(ORIGIN)

  const EMPTY: State :=
    State(0.0, Store(map[], {}, {}, {}), map[], {}, map[], true, 60.0, map[], {}, {}, {}, map[])

  const BEGUN: Flight := Flight(HERE, Begun, [], 0, false, [], Reply([], [], false, {}), {}, {})

  const READ: Flight := BEGUN.(phase := Fetched)

  /** The store after the create. */
  const PUBLISHED: Store := Store(map["m" := CAPSULE], {"m"}, {}, {})

  /** One call looks up, finds nothing and reads no rows. */
  const LOOKED: State := EMPTY.(flights := map[0 := BEGUN])
  const QUERIED: State := EMPTY.(flights := map[0 := READ])

  /** Meanwhile a message is created, and its invalidation runs to the end. */
  const INSERTED: State := QUERIED.(store := PUBLISHED, archive := PUBLISHED.messages, committed := {7})
  const SWEPT: State := INSERTED.(scanned := {7}, scans := map[7 := {}])
  const DROPPED: State := SWEPT.(finished := {7})

  /** Any time later a call whose slice is `f` goes on from `s`: reactions, order, store. */
  function Later(s: State, d: real): State { s.(now := d) }

  function WithFlight(s: State, f: Flight): State { s.(flights := map[0 := f]) }

  function InPhase(f: Flight, phase: Phase): Flight { f.(phase := phase, reply := Reply([], [], true, {})) }

  function Ended(w: World, s: State, f: Flight): State
  {
    WithFlight(s, InPhase(f, Returned)).(cache := map[GridKey(w, HERE) := Entry(f.ms, Some(s.now + 60.0))])
  }

  lemma ReadNothing(w: World)
    ensures Leads(w, EMPTY, Lookup(0, ORIGIN, true), LOOKED)
    ensures Leads(w, LOOKED, Fetch(0, []), QUERIED)
  {
    assert EMPTY.flights[0 := BEGUN] == LOOKED.flights;
    assert Rows(HERE, []) == [];
    assert LOOKED.flights[0 := READ] == QUERIED.flights;
  }

  lemma CreateCompletes(w: World)
    ensures Leads(w, QUERIED, Insert(7, CAPSULE), INSERTED)
    ensures Leads(w, INSERTED, Scan(7, {}), SWEPT) && Leads(w, SWEPT, Drop(7), DROPPED)
  {
    assert QUERIED.store.messages["m" := CAPSULE] == PUBLISHED.messages && {} + {"m"} == PUBLISHED.everUsed;
    assert QUERIED.archive["m" := CAPSULE] == PUBLISHED.messages;
    assert INSERTED.scans[7 := {}] == SWEPT.scans;
    assert SWEPT.cache - {} == DROPPED.cache;
  }

  /** A slice of at most one message, nothing masked, no reactions anywhere. */
  ghost predicate Plain(s: State, f: Flight)
  {
    && s.flights == map[0 := f] && f.phase == Fetched && f.next == |f.ms| <= 1 && f.q == HERE && !f.masked
    && s.cache == map[] && s.enabled && s.ttl == 60.0 && s.store.reactions == {}
  }

  lemma CallSorts(w: World, s: State, f: Flight)
    requires Plain(s, f)
    ensures Leads(w, s, Enrich(0, [], true), WithFlight(s, InPhase(f, Enriched)))
    ensures Leads(w, WithFlight(s, InPhase(f, Enriched)), Sort(0, f.ms), WithFlight(s, InPhase(f, Sorted)))
  {
    var enriched, sorted := InPhase(f, Enriched), InPhase(f, Sorted);
    assert EnrichAll(Reply([], [], true, {}), f.ms) == f.ms;
    assert s.flights[0 := enriched] == map[0 := enriched];
    assert map[0 := enriched][0 := sorted] == map[0 := sorted];
  }

  lemma CallStores(w: World, s: State, f: Flight)
    requires Plain(s, f)
    ensures Leads(w, WithFlight(s, InPhase(f, Sorted)), Finish(0, true), Ended(w, s, f))
  {
    var sorted, returned := InPhase(f, Sorted), InPhase(f, Returned);
    assert map[0 := sorted][0 := returned] == map[0 := returned];
    assert s.cache[GridKey(w, HERE) := Entry(f.ms, Some(s.now + 60.0))] == Ended(w, s, f).cache;
  }

  /** The next lookup is a hit. */
  lemma NextLookupHits(w: World, s: State, f: Flight)
    requires Plain(s, f)
    ensures Hit(w, View(Ended(w, s, f)), HERE, true) && Answered(w, Ended(w, s, f), HERE) == f.ms
    ensures Enabled(w, Ended(w, s, f), Lookup(1, ORIGIN, true))
    ensures Leads(w, Ended(w, s, f), Lookup(1, ORIGIN, true), Next(w, Ended(w, s, f), Lookup(1, ORIGIN, true)))
  {
  }

  /** Asked without the cache, every answer on that store contains the message. */
  lemma UncachedFindsIt(w: World, now: real, reply: Reply, out: seq<Message>)
    requires Grounded(w) && Produces(w, PUBLISHED, HERE, now, reply, out)
    ensures out != []
  {
    var m := Located(w.dist, 0.0, 0.0, CAPSULE);
    assert Candidate(w.dist, PUBLISHED.messages, 0.0, 0.0, 1000, "", now, m);
    assert reply.rows != [] by {
      assert m in reply.rows || |reply.rows| == HERE.limit;
    }
    assert |Prepared(PUBLISHED, HERE, reply)| > 0;
    assert |multiset(out)| == |multiset(Prepared(PUBLISHED, HERE, reply))|;
  }

  lemma UncachedAlwaysFindsIt(w: World, now: real)
    requires Grounded(w)
    ensures forall reply, out :: Produces(w, PUBLISHED, HERE, now, reply, out) ==> out != []
  {
    hide Produces;
    forall reply, out | Produces(w, PUBLISHED, HERE, now, reply, out) ensures out != [] {
      UncachedFindsIt(w, now, reply, out);
    }
  }

  /** Step `step` leads from `s` to `s'`, called anonymously if it is a lookup. */
  ghost predicate Leads(w: World, s: State, step: Step, s': State)
  {
    CalledBy({}, step) && Enabled(w, s, step) && s' == Next(w, s, step)
  }

  /** A run from `s`, so far at its first state. */
  lemma RunFrom(w: World, s: State)
    requires Quiet(s)
    ensures Run(w, {}, [s], [])
  {
  }

  lemma RunOn(w: World, states: seq<State>, steps: seq<Step>, step: Step, s': State)
    requires Run(w, {}, states, steps) && states != [] && Leads(w, states[|states| - 1], step, s')
    ensures Run(w, {}, states + [s'], steps + [step])
  {
    hide Next;
    hide Enabled;
    hide Quiet;
    hide CalledBy;
    var all, path := states + [s'], steps + [step];
    assert all[0] == states[0];
    forall i {:trigger path[i]} | 0 <= i < |path|
      ensures CalledBy({}, path[i]) && Enabled(w, all[i], path[i]) && all[i + 1] == Next(w, all[i], path[i])
    {
      if i < |steps| { assert path[i] == steps[i] && all[i] == states[i] && all[i + 1] == states[i + 1]; }
    }
  }

  /** Five steps at a time. */
  lemma RunOnFive(w: World, states: seq<State>, steps: seq<Step>, a: Step, s1: State, b: Step, s2: State, c: Step, s3: State,
                  d: Step, s4: State, e: Step, s5: State)
    requires Run(w, {}, states, steps) && states != []
    requires Leads(w, states[|states| - 1], a, s1) && Leads(w, s1, b, s2) && Leads(w, s2, c, s3)
    requires Leads(w, s3, d, s4) && Leads(w, s4, e, s5)
    ensures Run(w, {}, states + [s1, s2, s3, s4, s5], steps + [a, b, c, d, e])
  {
    hide Leads;
    hide Run;
    RunOn(w, states, steps, a, s1);
    RunOn(w, states + [s1], steps + [a], b, s2);
    RunOn(w, states + [s1] + [s2], steps + [a] + [b], c, s3);
    RunOn(w, states + [s1] + [s2] + [s3], steps + [a] + [b] + [c], d, s4);
    RunOn(w, states + [s1] + [s2] + [s3] + [s4], steps + [a] + [b] + [c] + [d], e, s5);
    assert states + [s1] + [s2] + [s3] + [s4] + [s5] == states + [s1, s2, s3, s4, s5];
    assert steps + [a] + [b] + [c] + [d] + [e] == steps + [a, b, c, d, e];
  }

  lemma Ticks(w: World, s: State, d: real)
    requires s.now == 0.0 && d >= 0.0
    ensures Leads(w, s, Step.Tick(d), Later(s, d))
  {
  }

  lemma CreateShape(d: real)
    ensures DROPPED.now == 0.0 && Plain(Later(DROPPED, d), READ) && Quiet(EMPTY)
  {
  }

  lemma StaleRun(w: World, d: real) returns (states: seq<State>, steps: seq<Step>)
    requires d >= 0.0
    ensures Run(w, {}, states, steps) && |steps| == 10 && |states| == 11
    ensures steps[1] == Fetch(0, []) && steps[2] == Insert(7, CAPSULE) && steps[9] == Lookup(1, ORIGIN, true)
    ensures states[1] == LOOKED && states[9] == Ended(w, Later(DROPPED, d), READ)
  {
    hide *;
    var s := Later(DROPPED, d);
    CreateShape(d);
    ReadNothing(w);
    CreateCompletes(w);
    Ticks(w, DROPPED, d);
    CallSorts(w, s, READ);
    CallStores(w, s, READ);
    NextLookupHits(w, s, READ);
    var ended := Ended(w, s, READ);
    var enriched, sorted := WithFlight(s, InPhase(READ, Enriched)), WithFlight(s, InPhase(READ, Sorted));
    RunFrom(w, EMPTY);
    RunOnFive(w, [EMPTY], [], Lookup(0, ORIGIN, true), LOOKED, Fetch(0, []), QUERIED, Insert(7, CAPSULE), INSERTED,
              Scan(7, {}), SWEPT, Drop(7), DROPPED);
    states := [EMPTY] + [LOOKED, QUERIED, INSERTED, SWEPT, DROPPED];
    steps := [] + [Lookup(0, ORIGIN, true), Fetch(0, []), Insert(7, CAPSULE), Scan(7, {}), Drop(7)];
    RunOnFive(w, states, steps, Step.Tick(d), s, Enrich(0, [], true), enriched, Sort(0, READ.ms), sorted,
              Finish(0, true), ended, Lookup(1, ORIGIN, true), Next(w, ended, Lookup(1, ORIGIN, true)));
    states := states + [s, enriched, sorted, ended, Next(w, ended, Lookup(1, ORIGIN, true))];
    steps := steps + [Step.Tick(d), Enrich(0, [], true), Sort(0, READ.ms), Finish(0, true), Lookup(1, ORIGIN, true)];
  }

  /** The window cannot be closed and has no bound but the length of the storing call: in every grounded world
      and for every delay `d` there is a run in which a create has returned, and `d` seconds after the
      rows were read a hit answers without the message, which every uncached answer would contain. */
  lemma StaleAfterReturnedCreate(w: World, d: real) returns (states: seq<State>, steps: seq<Step>)
    requires Grounded(w) && d >= 0.0
    ensures Run(w, {}, states, steps) && |steps| == 10 && |states| == 11
    ensures steps[1].Fetch? && steps[2].Insert? && steps[9].Lookup? && WellFormed(steps[9].q.user)
    ensures states[9].now - states[1].now == d && steps[2].write in states[9].finished
    ensures Hit(w, View(states[9]), Normalize(steps[9].q), steps[9].getOk)
    ensures !Listed(Answered(w, states[9], Normalize(steps[9].q)), steps[2].m.id)
    ensures forall reply, out :: Produces(w, states[9].store, Normalize(steps[9].q), states[9].now, reply, out) ==> out != []
  {
    hide Produces;
    hide Hit;
    hide Run;
    hide Answered;
    states, steps := StaleRun(w, d);
    NextLookupHits(w, Later(DROPPED, d), READ);
    UncachedAlwaysFindsIt(w, d);
  }

  // ---- The window is real: a delete -----------------------------------------------------------

  const ROWS: seq<Message> := [CAPSULE.(distance := Some(0.0))]

  /** The message is there; one call looks up, finds no entry and reads it. */
  const LISTED: State := EMPTY.(store := PUBLISHED, archive := PUBLISHED.messages)
  const ASKED: State := LISTED.(flights := map[0 := BEGUN])
  const FULL: Flight := READ.(ms := ROWS, base := ROWS)
  const HOLDING: State := LISTED.(flights := map[0 := FULL])

  /** Meanwhile its author deletes it, and the invalidation runs to the end. */
  const ERASED: State := HOLDING.(store := Store(map[], {"m"}, {}, {}), committed := {7})
  const CLEARED: State := ERASED.(scanned := {7}, scans := map[7 := {}])
  const GONE: State := CLEARED.(finished := {7})

  /** The slice once its only message has passed the masking loop. */
  const CHECKED: Flight := FULL.(next := 1)

  lemma ReadsTheMessage(w: World)
    requires Grounded(w)
    ensures Leads(w, LISTED, Lookup(0, ORIGIN, true), ASKED) && Leads(w, ASKED, Fetch(0, ROWS), HOLDING)
  {
    assert LISTED.flights[0 := BEGUN] == ASKED.flights;
    assert Located(w.dist, 0.0, 0.0, CAPSULE) == ROWS[0];
    assert Candidate(w.dist, PUBLISHED.messages, 0.0, 0.0, 1000, "", 0.0, ROWS[0]);
    assert SqlAnswer(w.dist, PUBLISHED.messages, 0.0, 0.0, 1000, 50, "", 0.0, ROWS);
    assert Rows(HERE, ROWS) == ROWS;
    assert ASKED.flights[0 := FULL] == HOLDING.flights;
  }

  lemma DeleteCompletes(w: World)
    ensures Leads(w, HOLDING, Erase(7, "m", "author-1"), ERASED)
    ensures Leads(w, ERASED, Scan(7, {}), CLEARED) && Leads(w, CLEARED, Drop(7), GONE)
  {
    assert PUBLISHED.messages - {"m"} == map[];
    assert Without(PUBLISHED, "m") == ERASED.store;
    assert ERASED.scans[7 := {}] == CLEARED.scans;
    assert CLEARED.cache - {} == GONE.cache;
  }

  lemma ChecksTheMessage(w: World, d: real)
    ensures Leads(w, Later(GONE, d), MaskNext(0, true), WithFlight(Later(GONE, d), CHECKED))
  {
    assert ROWS[0 := ROWS[0]] == ROWS && Failing(true, ROWS[0]) == {} && FULL.failed + {} == {};
    assert Masked(Later(GONE, d), FULL, true) == CHECKED;
    assert map[0 := FULL][0 := CHECKED] == map[0 := CHECKED];
  }

  lemma DeleteShape(d: real)
    ensures GONE.now == 0.0 && Plain(WithFlight(Later(GONE, d), CHECKED), CHECKED) && Quiet(LISTED)
  {
  }

  lemma ServedRun(w: World, d: real) returns (states: seq<State>, steps: seq<Step>)
    requires Grounded(w) && d >= 0.0
    ensures Run(w, {}, states, steps) && |steps| == 11 && |states| == 12
    ensures steps[1] == Fetch(0, ROWS) && steps[2] == Erase(7, "m", "author-1") && steps[10] == Lookup(1, ORIGIN, true)
    ensures states[1] == ASKED && states[10] == Ended(w, WithFlight(Later(GONE, d), CHECKED), CHECKED)
  {
    hide *;
    var s := WithFlight(Later(GONE, d), CHECKED);
    DeleteShape(d);
    ReadsTheMessage(w);
    DeleteCompletes(w);
    Ticks(w, GONE, d);
    ChecksTheMessage(w, d);
    CallSorts(w, s, CHECKED);
    CallStores(w, s, CHECKED);
    NextLookupHits(w, s, CHECKED);
    var ended := Ended(w, s, CHECKED);
    var enriched, sorted := WithFlight(s, InPhase(CHECKED, Enriched)), WithFlight(s, InPhase(CHECKED, Sorted));
    RunFrom(w, LISTED);
    RunOnFive(w, [LISTED], [], Lookup(0, ORIGIN, true), ASKED, Fetch(0, ROWS), HOLDING, Erase(7, "m", "author-1"), ERASED,
              Scan(7, {}), CLEARED, Drop(7), GONE);
    states := [LISTED] + [ASKED, HOLDING, ERASED, CLEARED, GONE];
    steps := [] + [Lookup(0, ORIGIN, true), Fetch(0, ROWS), Erase(7, "m", "author-1"), Scan(7, {}), Drop(7)];
    RunOnFive(w, states, steps, Step.Tick(d), Later(GONE, d), MaskNext(0, true), s, Enrich(0, [], true), enriched,
              Sort(0, CHECKED.ms), sorted, Finish(0, true), ended);
    states := states + [Later(GONE, d), s, enriched, sorted, ended];
    steps := steps + [Step.Tick(d), MaskNext(0, true), Enrich(0, [], true), Sort(0, CHECKED.ms), Finish(0, true)];
    RunOn(w, states, steps, Lookup(1, ORIGIN, true), Next(w, ended, Lookup(1, ORIGIN, true)));
    states := states + [Next(w, ended, Lookup(1, ORIGIN, true))];
    steps := steps + [Lookup(1, ORIGIN, true)];
  }

  /** The same for a delete: in every grounded world and for every delay `d` there is a run in which a delete has
      returned, and `d` seconds after the rows were read a hit still serves the message in full. */
  lemma ServedAfterReturnedDelete(w: World, d: real) returns (states: seq<State>, steps: seq<Step>, x: Message)
    requires Grounded(w) && d >= 0.0
    ensures Run(w, {}, states, steps) && |steps| == 11 && |states| == 12
    ensures steps[1].Fetch? && steps[2].Erase? && steps[10].Lookup? && WellFormed(steps[10].q.user)
    ensures states[10].now - states[1].now == d && steps[2].write in states[10].finished
    ensures Hit(w, View(states[10]), Normalize(steps[10].q), steps[10].getOk)
    ensures x in Answered(w, states[10], Normalize(steps[10].q)) && x.id == steps[2].id && x.id !in states[10].store.messages
    ensures x.id in states[10].archive && x.content == states[10].archive[x.id].content
  {
    hide Hit;
    hide Run;
    hide Answered;
    states, steps := ServedRun(w, d);
    NextLookupHits(w, WithFlight(Later(GONE, d), CHECKED), CHECKED);
    x := ROWS[0];
    assert x in CHECKED.ms;
  }
}
