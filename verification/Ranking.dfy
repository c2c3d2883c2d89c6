/** The ranking step of GetNearby and rankScore
    (backend/internal/service/message_service.go). Logarithm and exponential are parameters. */
module Ranking {
  import opened Basics
  import opened Messages

  /** math.Log1p and math.Exp. */
  datatype Curves = Curves(log1p: real -> real, exp: real -> real)

  ghost predicate StrictlyIncreasing(f: real -> real)
  {
    forall x, y :: x < y ==> f(x) < f(y)
  }

  ghost predicate Increasing(f: Curves)
  {
    StrictlyIncreasing(f.log1p) && StrictlyIncreasing(f.exp)
  }

  /** The distance the score uses: a missing or zero distance counts as 1000 m. */
  function ScoredDistance(m: Message): real
  {
    if m.distance.Some? && m.distance.value > 0.0 then m.distance.value else 1000.0
  }

  function RankScore(f: Curves, m: Message, now: real): real
  {
    var distScore := 1.0 - Min(ScoredDistance(m), 1000.0) / 1000.0;
    var likesScore := f.log1p(m.likes as real) / 5.0;
    var hours := (now - m.created) / 3600.0;
    var recencyScore := f.exp(-hours / 8.66);
    distScore * 0.4 + likesScore * 0.3 + recencyScore * 0.3
  }

  /** What the chosen order sorts by, largest first. Unknown orders rank by score. */
  function SortKey(f: Curves, order: string, now: real, m: Message): real
  {
    if order == "recent" then m.created
    else if order == "popular" then m.likes as real
    else RankScore(f, m, now)
  }

  /** A result of sort.Slice, which is not stable: a permutation in descending key order. */
  ghost predicate Ranked(f: Curves, order: string, now: real, ms: seq<Message>, out: seq<Message>)
  {
    && multiset(out) == multiset(ms)
    && forall i, j :: 0 <= i < j < |out| ==> SortKey(f, order, now, out[i]) >= SortKey(f, order, now, out[j])
  }

  /** "recent" lists newer messages first, "popular" more liked ones. */
  lemma RankedMeans(f: Curves, order: string, now: real, ms: seq<Message>, out: seq<Message>, i: nat, j: nat)
    requires Ranked(f, order, now, ms, out) && i < j < |out|
    ensures order == "recent" ==> out[i].created >= out[j].created
    ensures order == "popular" ==> out[i].likes >= out[j].likes
  {
    assert SortKey(f, order, now, out[i]) >= SortKey(f, order, now, out[j]);
  }

  /** What the score weighs: up to a kilometre, 100 m are worth 0.04; the logarithm of the likes
      counts 0.06, and freshness 0.3, fading by a factor e every 8.66 hours. */
  lemma ScoreTradeoffs(f: Curves, m: Message, now: real, d: real, d': real, likes: int, created: real)
    requires 0.0 < d && 0.0 < d'
    ensures var near, far := m.(distance := Some(d)), m.(distance := Some(d'));
            && (d <= 1000.0 && d' <= 1000.0 ==> RankScore(f, near, now) - RankScore(f, far, now) == (d' - d) * 0.0004)
            && (d >= 1000.0 && d' >= 1000.0 ==> RankScore(f, near, now) == RankScore(f, far, now))
    ensures d >= 1000.0 ==>
              RankScore(f, m.(distance := Some(d)), now)
              == 0.06 * f.log1p(m.likes as real) + 0.3 * f.exp((m.created - now) / 31176.0)
    ensures RankScore(f, m.(likes := likes), now) - RankScore(f, m, now)
            == 0.06 * (f.log1p(likes as real) - f.log1p(m.likes as real))
    ensures RankScore(f, m.(created := created), now) - RankScore(f, m, now)
            == 0.3 * (f.exp((created - now) / 31176.0) - f.exp((m.created - now) / 31176.0))
  {
    assert -((now - created) / 3600.0) / 8.66 == (created - now) / 31176.0;
    assert -((now - m.created) / 3600.0) / 8.66 == (m.created - now) / 31176.0;
  }

  /** `a` is no farther, no older and no less liked than `b`, and better in age or likes. */
  predicate Dominates(a: Message, b: Message)
  {
    && a.distance.Some? && b.distance.Some? && a.distance.value <= b.distance.value
    && a.created >= b.created && a.likes >= b.likes
    && (a.created > b.created || a.likes > b.likes)
  }

  lemma DominanceScores(f: Curves, a: Message, b: Message, now: real)
    requires Increasing(f) && Dominates(a, b) && a.distance.value > 0.0
    ensures RankScore(f, a, now) > RankScore(f, b, now)
  {
    var ha, hb := -((now - a.created) / 3600.0) / 8.66, -((now - b.created) / 3600.0) / 8.66;
    assert a.created > b.created ==> ha > hb;
    assert a.created == b.created ==> ha == hb;
    assert f.exp(ha) >= f.exp(hb);
    assert f.log1p(a.likes as real) >= f.log1p(b.likes as real);
    assert Min(ScoredDistance(a), 1000.0) <= Min(ScoredDistance(b), 1000.0);
  }

  /** In the default order a dominating message at a positive distance comes strictly earlier. */
  lemma DominatingComesFirst(f: Curves, order: string, now: real, ms: seq<Message>, out: seq<Message>, i: nat, j: nat)
    requires Increasing(f) && Ranked(f, order, now, ms, out) && order != "recent" && order != "popular"
    requires i < |out| && j < |out| && Dominates(out[i], out[j]) && out[i].distance.value > 0.0
    ensures i < j
  {
    DominanceScores(f, out[i], out[j], now);
  }

  /** A message at distance zero, or without one, scores exactly as if it were 1000 m away. */
  lemma ZeroDistanceScoresAsFar(f: Curves, m: Message, now: real)
    requires m.distance.None? || m.distance.value <= 0.0
    ensures RankScore(f, m, now) == RankScore(f, m.(distance := Some(1000.0)), now)
    ensures forall d :: 0.0 < d < 1000.0 ==> RankScore(f, m, now) < RankScore(f, m.(distance := Some(d)), now)
  {
    forall d | 0.0 < d < 1000.0
      ensures RankScore(f, m, now) < RankScore(f, m.(distance := Some(d)), now)
    {
      assert ScoredDistance(m.(distance := Some(d))) == d;
      assert d / 1000.0 < 1.0;
    }
  }

  /** What the failing case needs of math.Exp: at arguments up to zero it lies in (0, 1]. */
  ghost predicate ExpLike(f: Curves)
  {
    forall x :: x <= 0.0 ==> 0.0 < f.exp(x) <= 1.0
  }

  /** For every such curves and every message at distance zero: it dominates a message 100 m away
      and a second older, and yet scores below it. */
  lemma ZeroDistanceBreaksDominance(f: Curves, a: Message) returns (b: Message, now: real)
    requires Increasing(f) && ExpLike(f) && a.distance == Some(0.0)
    ensures Dominates(a, b) && RankScore(f, a, now) < RankScore(f, b, now)
  {
    b := a.(distance := Some(100.0), created := a.created - 1.0);
    now := a.created;
    var ha, hb := -((now - a.created) / 3600.0) / 8.66, -((now - b.created) / 3600.0) / 8.66;
    assert ha <= 0.0 && hb <= 0.0;
    assert f.exp(ha) <= 1.0 && f.exp(hb) > 0.0;
    assert ScoredDistance(a) == 1000.0 && ScoredDistance(b) == 100.0;
  }

  /** Exactly: a message with a distance outscores everything it dominates, at every moment, if and
      only if that distance is not zero. */
  lemma DominanceExact(f: Curves, a: Message)
    requires Increasing(f) && ExpLike(f) && a.distance.Some? && a.distance.value >= 0.0
    ensures (forall b, now :: Dominates(a, b) ==> RankScore(f, a, now) > RankScore(f, b, now)) <==> a.distance.value > 0.0
  {
    if a.distance.value > 0.0 {
      forall b, now | Dominates(a, b) ensures RankScore(f, a, now) > RankScore(f, b, now) {
        DominanceScores(f, a, b, now);
      }
    } else {
      var b, now := ZeroDistanceBreaksDominance(f, a);
      assert Dominates(a, b) && !(RankScore(f, a, now) > RankScore(f, b, now));
    }
  }

  /** First position whose key is below that of `m`. */
  method Slot(f: Curves, order: string, now: real, out: seq<Message>, m: Message) returns (p: nat)
    ensures p <= |out|
    ensures forall i :: 0 <= i < p ==> SortKey(f, order, now, out[i]) >= SortKey(f, order, now, m)
    ensures p < |out| ==> SortKey(f, order, now, out[p]) < SortKey(f, order, now, m)
  {
    hide SortKey;
    p := 0;
    while p < |out| && SortKey(f, order, now, out[p]) >= SortKey(f, order, now, m)
      invariant 0 <= p <= |out|
      invariant forall i :: 0 <= i < p ==> SortKey(f, order, now, out[i]) >= SortKey(f, order, now, m)
    {
      p := p + 1;
    }
  }

  /** The sort, by insertion. */
  method Rank(f: Curves, order: string, now: real, ms: seq<Message>) returns (out: seq<Message>)
    ensures Ranked(f, order, now, ms, out)
  {
    out := [];
    assert Ranked(f, order, now, ms[..0], out);
    hide Ranked;
    hide SortKey;
    for n := 0 to |ms|
      invariant Ranked(f, order, now, ms[..n], out)
    {
      var p := Slot(f, order, now, out, ms[n]);
      assert ms[..n + 1] == ms[..n] + [ms[n]];
      out := Inserted(f, order, now, ms[..n], out, ms[n], p);
    }
    assert ms[..|ms|] == ms;
  }

  function Inserted(f: Curves, order: string, now: real, ghost ms: seq<Message>, out: seq<Message>, m: Message, p: nat): (r: seq<Message>)
    requires p <= |out| && Ranked(f, order, now, ms, out)
    requires forall i :: 0 <= i < p ==> SortKey(f, order, now, out[i]) >= SortKey(f, order, now, m)
    requires p < |out| ==> SortKey(f, order, now, out[p]) < SortKey(f, order, now, m)
    ensures Ranked(f, order, now, ms + [m], r)
  {
    InsertedRanked(f, order, now, ms, out, m, p);
    out[..p] + [m] + out[p..]
  }

  lemma InsertedRanked(f: Curves, order: string, now: real, ms: seq<Message>, out: seq<Message>, m: Message, p: nat)
    requires p <= |out| && Ranked(f, order, now, ms, out)
    requires forall i :: 0 <= i < p ==> SortKey(f, order, now, out[i]) >= SortKey(f, order, now, m)
    requires p < |out| ==> SortKey(f, order, now, out[p]) < SortKey(f, order, now, m)
    ensures Ranked(f, order, now, ms + [m], out[..p] + [m] + out[p..])
  {
    hide SortKey;
    InsertedMembers(out, m, p);
    forall i, j | 0 <= i < j < |out| + 1
      ensures SortKey(f, order, now, Placed(out, m, p, i)) >= SortKey(f, order, now, Placed(out, m, p, j))
    {
    }
    hide Placed;
  }

  /** Element `i` of `out` with `m` inserted at `p`. */
  function Placed(out: seq<Message>, m: Message, p: nat, i: nat): Message
    requires p <= |out| && i <= |out|
  {
    if i < p then out[i] else if i == p then m else out[i - 1]
  }

  lemma InsertedMembers(out: seq<Message>, m: Message, p: nat)
    requires p <= |out|
    ensures var r := out[..p] + [m] + out[p..];
            multiset(r) == multiset(out + [m]) && forall i :: 0 <= i < |r| ==> r[i] == Placed(out, m, p, i)
  {
    assert out == out[..p] + out[p..];
  }
}
