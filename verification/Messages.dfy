/** Messages: what Create stores, what the nearby query of migration 007 returns, and the in-place
    hashtag filter of backend/internal/repository/message_repo.go. */
module Messages {
  import opened Basics
  import opened Hashtags
  import opened Reactions

  datatype Kind = Standard | Mystery | Capsule

  datatype Visibility = Public | Friends | Private

  /** A message row; `distance` and `reactions` are filled in on the way out. Times are seconds. */
  datatype Message = Message(
    id: Msg, author: User, content: string, lat: real, lng: real, visibility: Visibility,
    hashtags: seq<string>, likes: int, created: real, kind: Kind, expires: Option<real>,
    mysteryRadius: int, scheduled: Option<real>, hidden: bool,
    distance: Option<real>, reactions: seq<Summary>)

  // ---- Create ---------------------------------------------------------------------

  const DAY: real := 86400.0

  /** A create request; `scheduledAt` is None when the date is absent or does not parse. */
  datatype Request = Request(
    content: string, lat: real, lng: real, visibility: Visibility, kind: Kind,
    mysteryRadius: int, scheduledAt: Option<real>)

  /** The row Create inserts. */
  function Stored(req: Request, id: Msg, author: User, now: real): Message
  {
    var expires :=
      match req.kind
      case Standard => Some(now + DAY)
      case Capsule => if req.scheduledAt.Some? then Some(req.scheduledAt.value + DAY) else None
      case Mystery => None;
    Message(id, author, TrimSpace(req.content), req.lat, req.lng, req.visibility,
            Extract(req.content), 0, now, req.kind, expires,
            if req.mysteryRadius <= 0 then 50 else req.mysteryRadius,
            if req.kind == Capsule then req.scheduledAt else None, false, None, [])
  }

  /** The stored tags are those of the stored content, though computed from the raw one. */
  lemma StoredTags(req: Request, id: Msg, author: User, now: real)
    ensures Stored(req, id, author, now).hashtags == Extract(Stored(req, id, author, now).content)
  {
    ExtractOfTrimmed(req.content);
  }

  /** What Create stores, column by column: the request's place, visibility and kind, its content
      between the outer white space, the author and the time; no likes, not hidden, and a mystery
      radius of 50 m unless a positive one is given. A standard message expires after a day, a dated
      capsule a day after its date; nothing else expires, and only capsules are scheduled. */
  lemma StoredColumns(req: Request, id: Msg, author: User, now: real)
    ensures var m := Stored(req, id, author, now);
            && m.id == id && m.author == author && m.lat == req.lat && m.lng == req.lng
            && m.visibility == req.visibility && m.kind == req.kind && m.content == TrimSpace(req.content)
            && m.created == now && m.likes == 0 && !m.hidden && m.reactions == []
            && m.mysteryRadius == (if req.mysteryRadius > 0 then req.mysteryRadius else 50)
            && m.hashtags == Extract(req.content)
            && m.expires == (match req.kind
                             case Standard => Some(now + 24.0 * 3600.0)
                             case Capsule => (match req.scheduledAt case None => None case Some(t) => Some(t + 24.0 * 3600.0))
                             case Mystery => None)
            && m.scheduled == (if req.kind == Capsule then req.scheduledAt else None)
  {
  }

  // ---- The nearby query --------------------------------------------------------------

  /** The visibility predicate of get_nearby_messages; `user` is "" for an anonymous caller. */
  predicate Visible(m: Message, user: User, now: real)
  {
    && (m.visibility == Public || (user != "" && m.author == user))
    && (m.expires.Some? ==> m.expires.value > now)
    && (m.scheduled.Some? ==> m.scheduled.value <= now)
    && !m.hidden
  }

  /** When a stored message can be seen: a standard one for a day, a capsule for a day from its
      reveal, a mystery (or a capsule without a usable date) always; and only its author sees one
      that is not public. */
  lemma VisibleWindow(req: Request, id: Msg, author: User, created: real, user: User, t: real)
    ensures Visible(Stored(req, id, author, created), user, t) <==>
            && (req.visibility == Public || (user != "" && user == author))
            && match req.kind
               case Standard => t < created + DAY
               case Mystery => true
               case Capsule => req.scheduledAt.None? || req.scheduledAt.value <= t < req.scheduledAt.value + DAY
  {
  }

  /** Distance in metres between two points; never negative. */
  type Distance = (real, real, real, real) -> real

  function Located(dist: Distance, lat: real, lng: real, m: Message): Message
  {
    m.(distance := Some(dist(m.lat, m.lng, lat, lng)))
  }

  /** A row of the answer: a stored message in range and visible, with its distance. */
  ghost predicate Candidate(dist: Distance, ms: map<Msg, Message>, lat: real, lng: real, radius: int,
                            user: User, now: real, m: Message)
  {
    && m.id in ms
    && m == Located(dist, lat, lng, ms[m.id])
    && Visible(ms[m.id], user, now)
    && m.distance.value <= radius as real
  }

  /** An answer to ORDER BY distance LIMIT n: distinct candidates, nearest first, and nothing left
      out while there was room or while it was nearer. Ties may come in any order. */
  ghost predicate SqlAnswer(dist: Distance, ms: map<Msg, Message>, lat: real, lng: real, radius: int, limit: int,
                            user: User, now: real, rows: seq<Message>)
  {
    && (forall i :: 0 <= i < |rows| ==> Candidate(dist, ms, lat, lng, radius, user, now, rows[i]))
    && (forall i, j :: 0 <= i < j < |rows| ==> rows[i].id != rows[j].id && rows[i].distance.value <= rows[j].distance.value)
    && |rows| <= limit
    && (forall m :: Candidate(dist, ms, lat, lng, radius, user, now, m) && m !in rows ==>
          |rows| == limit && forall i :: 0 <= i < |rows| ==> rows[i].distance.value <= m.distance.value)
  }

  // ---- Who the limit leaves out ------------------------------------------------------------

  /** The other messages the query could return that are no farther than message `id`, or nearer. */
  function Rivals(dist: Distance, ms: map<Msg, Message>, lat: real, lng: real, radius: int, user: User, now: real,
                  id: Msg, nearer: bool): set<Msg>
    requires id in ms
  {
    var d := dist(ms[id].lat, ms[id].lng, lat, lng);
    set i | i in ms && i != id && ms[i].id == i && Visible(ms[i], user, now) &&
            dist(ms[i].lat, ms[i].lng, lat, lng) <= radius as real &&
            (if nearer then dist(ms[i].lat, ms[i].lng, lat, lng) < d else dist(ms[i].lat, ms[i].lng, lat, lng) <= d)
  }

  function IdSet(rows: seq<Message>): set<Msg>
  {
    set i | 0 <= i < |rows| :: rows[i].id
  }

  lemma {:induction false} IdSetSize(rows: seq<Message>)
    requires forall i, j :: 0 <= i < j < |rows| ==> rows[i].id != rows[j].id
    ensures |IdSet(rows)| == |rows|
  {
    if rows != [] {
      var n := |rows| - 1;
      IdSetSize(rows[..n]);
      assert rows[n].id !in IdSet(rows[..n]);
      IdSetLast(rows[..n], rows[n]);
      assert rows[..n] + [rows[n]] == rows;
    }
  }

  lemma IdSetLast(rows: seq<Message>, m: Message)
    ensures IdSet(rows + [m]) == IdSet(rows) + {m.id}
  {
    var all := rows + [m];
    assert m.id in IdSet(all) by { assert all[|rows|] == m; }
    forall id | id in IdSet(all) ensures id in IdSet(rows) + {m.id} {
      var i :| 0 <= i < |all| && all[i].id == id;
      if i < |rows| { assert rows[i].id == id; }
    }
    forall id | id in IdSet(rows) ensures id in IdSet(all) {
      var i :| 0 <= i < |rows| && rows[i].id == id;
      assert all[i].id == id;
    }
  }

  lemma LeftOutIsCrowded(dist: Distance, ms: map<Msg, Message>, lat: real, lng: real, radius: int, limit: int,
                         user: User, now: real, rows: seq<Message>, m: Message)
    requires SqlAnswer(dist, ms, lat, lng, radius, limit, user, now, rows)
    requires Candidate(dist, ms, lat, lng, radius, user, now, m) && m !in rows
    ensures |Rivals(dist, ms, lat, lng, radius, user, now, m.id, false)| >= limit
  {
    var rivals := Rivals(dist, ms, lat, lng, radius, user, now, m.id, false);
    IdSetSize(rows);
    forall id | id in IdSet(rows) ensures id in rivals {
      var i :| 0 <= i < |rows| && rows[i].id == id;
      assert rows[i] in rows && Candidate(dist, ms, lat, lng, radius, user, now, rows[i]);
      assert rows[i].distance.value <= m.distance.value;
      assert id != m.id;
    }
    SubsetSize(IdSet(rows), rivals);
  }

  lemma CrowdedIsLeftOut(dist: Distance, ms: map<Msg, Message>, lat: real, lng: real, radius: int, limit: int,
                         user: User, now: real, rows: seq<Message>, m: Message)
    requires SqlAnswer(dist, ms, lat, lng, radius, limit, user, now, rows)
    requires Candidate(dist, ms, lat, lng, radius, user, now, m) && m in rows
    ensures |Rivals(dist, ms, lat, lng, radius, user, now, m.id, true)| < limit
  {
    var rivals := Rivals(dist, ms, lat, lng, radius, user, now, m.id, true);
    IdSetSize(rows);
    var k :| 0 <= k < |rows| && rows[k] == m;
    forall id | id in rivals ensures id in IdSet(rows) {
      var c := Located(dist, lat, lng, ms[id]);
      assert Candidate(dist, ms, lat, lng, radius, user, now, c);
      assert c.distance.value < rows[k].distance.value;
      assert c in rows;
      var i :| 0 <= i < |rows| && rows[i] == c;
      assert rows[i].id == id;
    }
    assert rows[k].id in IdSet(rows);
    SubsetSize(rivals + {m.id}, IdSet(rows));
  }

  /** A message the query could return is in the answer whenever fewer than `limit` others are no
      farther, and left out whenever `limit` others are nearer; with no tie that is if and only if. */
  lemma LimitExact(dist: Distance, ms: map<Msg, Message>, lat: real, lng: real, radius: int, limit: int,
                   user: User, now: real, rows: seq<Message>, m: Message)
    requires SqlAnswer(dist, ms, lat, lng, radius, limit, user, now, rows)
    requires Candidate(dist, ms, lat, lng, radius, user, now, m)
    ensures |Rivals(dist, ms, lat, lng, radius, user, now, m.id, false)| < limit ==> m in rows
    ensures |Rivals(dist, ms, lat, lng, radius, user, now, m.id, true)| >= limit ==> m !in rows
    ensures Rivals(dist, ms, lat, lng, radius, user, now, m.id, true) == Rivals(dist, ms, lat, lng, radius, user, now, m.id, false)
            ==> (m in rows <==> |Rivals(dist, ms, lat, lng, radius, user, now, m.id, true)| < limit)
  {
    hide SqlAnswer;
    hide Candidate;
    hide Rivals;
    assert m.id in ms by { CandidateStored(dist, ms, lat, lng, radius, user, now, m); }
    if m in rows {
      CrowdedIsLeftOut(dist, ms, lat, lng, radius, limit, user, now, rows, m);
    } else {
      LeftOutIsCrowded(dist, ms, lat, lng, radius, limit, user, now, rows, m);
    }
  }

  lemma CandidateStored(dist: Distance, ms: map<Msg, Message>, lat: real, lng: real, radius: int, user: User, now: real, m: Message)
    requires Candidate(dist, ms, lat, lng, radius, user, now, m)
    ensures m.id in ms
  {
  }

  // ---- The hashtag filter ---------------------------------------------------------------

  predicate Contains(s: string, t: string)
  {
    exists i :: 0 <= i <= |s| && t <= s[i..]
  }

  /** strings.ToLower(strings.TrimPrefix(hashtag, "#")) */
  function SearchTag(hashtag: string): string
  {
    ToLower(if hashtag != [] && hashtag[0] == '#' then hashtag[1..] else hashtag)
  }

  predicate HasTag(m: Message, tag: string)
  {
    exists i :: 0 <= i < |m.hashtags| && Contains(ToLower(m.hashtags[i]), tag)
  }

  /** The stable filter. */
  function Keep(ms: seq<Message>, tag: string): seq<Message>
  {
    if ms == [] then []
    else Keep(ms[..|ms| - 1], tag) + if HasTag(ms[|ms| - 1], tag) then [ms[|ms| - 1]] else []
  }

  lemma ContainsExact(s: string, tag: string)
    ensures Contains(s, tag) <==> exists a, b :: s == a + tag + b
  {
    if Contains(s, tag) {
      var i :| 0 <= i <= |s| && tag <= s[i..];
      assert s == s[..i] + tag + s[i + |tag|..];
    }
    if a, b :| s == a + tag + b {
      assert s[|a|..] == tag + b;
    }
  }

  /** A message is found by a tag exactly if one of its hashtags, in lower case, contains it. */
  lemma HasTagExact(m: Message, tag: string)
    ensures HasTag(m, tag) <==> exists t :: t in m.hashtags && exists a, b :: ToLower(t) == a + tag + b
  {
    hide ToLower;
    hide Contains;
    forall t ensures Contains(ToLower(t), tag) <==> exists a, b :: ToLower(t) == a + tag + b {
      ContainsExact(ToLower(t), tag);
    }
    if t :| t in m.hashtags && Contains(ToLower(t), tag) {
      var k :| 0 <= k < |m.hashtags| && m.hashtags[k] == t;
    }
  }

  /** Searching with or without one leading '#', in any ASCII case, selects the same messages. */
  lemma SearchIgnoresHashAndCase(ms: seq<Message>, plain: string, other: string)
    requires ToLower(plain) == ToLower(other) && (plain == [] || plain[0] != '#')
    ensures Keep(ms, SearchTag("#" + other)) == Keep(ms, SearchTag(plain))
  {
    assert ("#" + other)[1..] == other;
  }

  /** A message tagged `t` is found by `t` and by every piece of it, in any case. */
  lemma FoundByPieces(m: Message, t: string, a: string, piece: string, b: string)
    requires t in m.hashtags && t == a + piece + b && (piece == [] || piece[0] != '#')
    ensures HasTag(m, SearchTag(piece)) && HasTag(m, SearchTag("#" + piece))
  {
    assert ("#" + piece)[1..] == piece;
    LowerPieces(a, piece, b);
    hide ToLower;
    ContainsExact(ToLower(t), ToLower(piece));
    hide Contains;
    var k :| 0 <= k < |m.hashtags| && m.hashtags[k] == t;
  }

  lemma LowerPieces(a: string, piece: string, b: string)
    ensures ToLower(a + piece + b) == ToLower(a) + ToLower(piece) + ToLower(b)
  {
  }

  lemma {:induction false} KeepMembers(ms: seq<Message>, tag: string, m: Message)
    ensures m in Keep(ms, tag) <==> m in ms && HasTag(m, tag)
  {
    if ms != [] {
      KeepMembers(ms[..|ms| - 1], tag, m);
      assert ms == ms[..|ms| - 1] + [ms[|ms| - 1]];
    }
  }

  /** `kept` is the subsequence of `ms` at exactly the positions `at` whose message has the tag. */
  ghost predicate Selects(ms: seq<Message>, tag: string, at: seq<int>, kept: seq<Message>)
  {
    && |at| == |kept|
    && (forall i, j :: 0 <= i < j < |at| ==> at[i] < at[j])
    && (forall i :: 0 <= i < |at| ==> 0 <= at[i] < |ms| && HasTag(ms[at[i]], tag) && kept[i] == ms[at[i]])
    && (forall p :: 0 <= p < |ms| && HasTag(ms[p], tag) ==> p in at)
  }

  lemma SelectsMore(ms: seq<Message>, tag: string, at: seq<int>, kept: seq<Message>, m: Message)
    requires Selects(ms, tag, at, kept)
    ensures HasTag(m, tag) ==> Selects(ms + [m], tag, at + [|ms|], kept + [m])
    ensures !HasTag(m, tag) ==> Selects(ms + [m], tag, at, kept)
  {
    hide HasTag;
  }

  /** The filter is stable and complete. */
  lemma {:induction false} KeepStable(ms: seq<Message>, tag: string) returns (at: seq<int>)
    ensures Selects(ms, tag, at, Keep(ms, tag))
  {
    at := [];
    if ms != [] {
      hide HasTag;
      var n := |ms| - 1;
      at := KeepStable(ms[..n], tag);
      SelectsMore(ms[..n], tag, at, Keep(ms[..n], tag), ms[n]);
      assert ms[..n] + [ms[n]] == ms;
      hide Selects;
      if HasTag(ms[n], tag) { at := at + [n]; }
      assert Keep(ms, tag) == Keep(ms[..n], tag) + if HasTag(ms[n], tag) then [ms[n]] else [];
    }
  }

  /** filtered := messages[:0] shares the backing array with the slice being ranged over; writing
      behind the read position, the compaction still leaves exactly the stable filter in front. */
  method FilterInPlace(a: array<Message>, tag: string) returns (n: nat)
    modifies a
    ensures n <= a.Length
    ensures a[..n] == Keep(old(a[..]), tag)
  {
    ghost var before := a[..];
    n := 0;
    var r := 0;
    while r < a.Length
      invariant 0 <= n <= r <= a.Length
      invariant a[..n] == Keep(before[..r], tag)
      invariant forall k :: r <= k < a.Length ==> a[k] == before[k]
    {
      var m := a[r];
      assert m == before[r];
      assert before[..r + 1][..r] == before[..r];
      var h := 0;
      while h < |m.hashtags| && !Contains(ToLower(m.hashtags[h]), tag)
        invariant 0 <= h <= |m.hashtags|
        invariant forall k :: 0 <= k < h ==> !Contains(ToLower(m.hashtags[k]), tag)
      {
        h := h + 1;
      }
      if h < |m.hashtags| {
        a[n] := m;
        n := n + 1;
      }
      r := r + 1;
    }
    assert before[..r] == before;
  }
}
